/** Container-level tracing (components/container_tracer.py): which
    baseline carrier first held each container ID, and for every row of a
    scenario which of its IDs stayed with that carrier, flipped to it from
    another one or are unknown to the baseline, rendered as
    "Had N → From X (+k), Lost m → Now T". */
module ContainerTracer {
  import opened Wrappers
  import opened Seqs
  import opened Text
  import opened Frame
  import opened Utils

  // ---------------------------------------------------------------------
  // Parsing
  // ---------------------------------------------------------------------

  /** This module's `parse_container_ids`: NaN or "" gives no IDs; otherwise
      the comma-separated pieces, trimmed, blank ones dropped. */
  function ParseIds(v: Option<string>): (ids: seq<string>)
    ensures forall k :: 0 <= k < |ids| ==> WellFormedId(ids[k])
  {
    match v
    case None => []
    case Some(s) => if s == "" then [] else Pieces(Split(s, ','))
  }

  /** It agrees with the parser of components/utils.py on every input,
      although only the latter tests for a blank string up front. */
  lemma ParseIdsAgree(v: Option<string>)
    ensures ParseIds(v) == ParseContainerIds(v)
  {
    if v.Some? && v.value != "" && Strip(v.value) == "" {
      var s := v.value;
      StripBlank(s);
      assert ',' !in s by {
        assert forall k :: 0 <= k < |s| ==> s[k] != ',';
      }
      SplitNoSep(s, ',');
    }
  }

  /** The IDs of a row's `Container Numbers` cell; none without the column. */
  function RowIds(columns: set<Column>, r: Shipment): seq<string>
  {
    if IDS in columns then ParseIds(r.ids) else []
  }

  /** The ID list of every row. */
  function IdLists(columns: set<Column>, rows: seq<Shipment>): (ls: seq<seq<string>>)
    ensures |ls| == |rows| && forall j :: 0 <= j < |rows| ==> ls[j] == RowIds(columns, rows[j])
  {
    seq(|rows|, j requires 0 <= j < |rows| => RowIds(columns, rows[j]))
  }

  // ---------------------------------------------------------------------
  // build_container_origin_map
  // ---------------------------------------------------------------------

  /** The context dictionary built for a baseline row. All IDs of the row
      refer to the same one, so a duplicate mark made through one ID is
      seen through all of them. `duplicateCount` is 0 while unmarked. */
  datatype Context = Context(carrier: Option<string>, week: int, port: Value, lane: Value, facility: Value,
                             terminal: Value, category: Value, weekNumber: Value,
                             duplicate: bool, duplicateCount: nat)

  /** `row.get(carrier_col, 'Unknown')`. */
  function CarrierCell(columns: set<Column>, r: Shipment): Option<string>
  {
    if CARRIER in columns then r.carrier else Some("Unknown")
  }

  /** A location entry of the context: the cell, or '' for NaN or a
      missing column. */
  function ContextCell(columns: set<Column>, r: Shipment, col: Column): (v: Value)
    ensures v != Missing
  {
    if col in columns && Cell(r, col) != Missing then Cell(r, col) else Str("")
  }

  /** The context of a baseline row, not yet marked. */
  function RowContext(columns: set<Column>, r: Shipment): Context
  {
    Context(CarrierCell(columns, r), if WEEK in columns && r.week.Some? then r.week.value else 0,
            ContextCell(columns, r, PORT), ContextCell(columns, r, LANE), ContextCell(columns, r, FACILITY),
            ContextCell(columns, r, TERMINAL), ContextCell(columns, r, CATEGORY), ContextCell(columns, r, WEEK),
            false, 0)
  }

  /** A context with its duplicate mark taken off. */
  function Unmarked(c: Context): Context
  {
    c.(duplicate := false, duplicateCount := 0)
  }

  /** The origin map: `order` lists the IDs in insertion order, `origin`
      gives each the index of the context it refers to, and `contexts`
      holds one context per baseline row, in row order. */
  datatype OriginMap = OriginMap(order: seq<string>, origin: map<string, nat>, contexts: seq<Context>)

  /** Every entry refers to a context of the map. */
  predicate Indexed(m: OriginMap)
  {
    forall id :: id in m.origin ==> m.origin[id] < |m.contexts|
  }

  /** The insertion order lists exactly the entries. */
  ghost predicate Keyed(m: OriginMap)
  {
    forall id :: id in m.origin <==> id in m.order
  }

  /** A mark, once made, counts at least the two occurrences that made it. */
  predicate WellMarked(cs: seq<Context>)
  {
    forall i :: 0 <= i < |cs| ==> if cs[i].duplicate then cs[i].duplicateCount >= 2 else cs[i].duplicateCount == 0
  }

  /** The occurrences beyond the first that a context records. */
  function Extra(c: Context): nat
  {
    if c.duplicate && c.duplicateCount >= 1 then c.duplicateCount - 1 else 0
  }

  function SumExtra(cs: seq<Context>): nat
  {
    if |cs| == 0 then 0 else SumExtra(cs[..|cs| - 1]) + Extra(cs[|cs| - 1])
  }

  /** One ID of baseline row `j`: a new ID refers to the
      row's context; a repeated one keeps the context it has and marks it. */
  function MapId(m: OriginMap, id: string, j: nat): (m': OriginMap)
    requires Indexed(m) && j < |m.contexts|
    ensures Indexed(m') && |m'.contexts| == |m.contexts|
  {
    if id !in m.origin then OriginMap(m.order + [id], m.origin[id := j], m.contexts)
    else
      var i := m.origin[id];
      var c := m.contexts[i];
      var c' := if c.duplicate then c.(duplicateCount := c.duplicateCount + 1) else c.(duplicate := true, duplicateCount := 2);
      OriginMap(m.order, m.origin, m.contexts[i := c'])
  }

  /** The IDs of baseline row `j`, one after another. */
  function MapIds(m: OriginMap, ids: seq<string>, j: nat): (m': OriginMap)
    requires Indexed(m) && j < |m.contexts|
    ensures Indexed(m') && |m'.contexts| == |m.contexts|
  {
    if |ids| == 0 then m else MapId(MapIds(m, ids[..|ids| - 1], j), ids[|ids| - 1], j)
  }

  /** The context of every row. */
  function RowContexts(columns: set<Column>, rows: seq<Shipment>): (cs: seq<Context>)
    ensures |cs| == |rows| && forall j :: 0 <= j < |rows| ==> cs[j] == RowContext(columns, rows[j])
  {
    seq(|rows|, j requires 0 <= j < |rows| => RowContext(columns, rows[j]))
  }

  /** The origin map of baseline rows with contexts `cs` and ID lists `ls`. */
  function Origins(cs: seq<Context>, ls: seq<seq<string>>): (m: OriginMap)
    requires |cs| == |ls|
    ensures Indexed(m) && |m.contexts| == |ls|
  {
    if |ls| == 0 then OriginMap([], map[], [])
    else
      var n := |ls| - 1;
      var m := Origins(cs[..n], ls[..n]);
      MapIds(OriginMap(m.order, m.origin, m.contexts + [cs[n]]), ls[n], n)
  }

  /** The origin map of the baseline rows. */
  function OriginOf(columns: set<Column>, rows: seq<Shipment>): OriginMap
  {
    Origins(RowContexts(columns, rows), IdLists(columns, rows))
  }

  /** `build_container_origin_map`: the row loop, each row's context
      appended and its IDs entered by `MapRowIds`. */
  method BuildContainerOriginMap(columns: set<Column>, rows: seq<Shipment>) returns (m: OriginMap)
    ensures m == OriginOf(columns, rows)
  {
    ghost var cs, ls := RowContexts(columns, rows), IdLists(columns, rows);
    m := OriginMap([], map[], []);
    var i := 0;
    while i < |rows|
      invariant 0 <= i <= |rows|
      invariant m == Origins(cs[..i], ls[..i])
    {
      assert cs[..i + 1][..i] == cs[..i] && ls[..i + 1][..i] == ls[..i];
      m := MapRowIds(m.order, m.origin, m.contexts + [RowContext(columns, rows[i])], RowIds(columns, rows[i]), i);
      i := i + 1;
    }
    assert cs[..i] == cs && ls[..i] == ls;
  }

  /** The loop over the IDs of baseline row `j`, updating
      the dictionary and the shared contexts in place. */
  method MapRowIds(order0: seq<string>, origin0: map<string, nat>, contexts0: seq<Context>, ids: seq<string>, j: nat)
    returns (m: OriginMap)
    requires Indexed(OriginMap(order0, origin0, contexts0)) && j < |contexts0|
    ensures m == MapIds(OriginMap(order0, origin0, contexts0), ids, j)
  {
    ghost var start := OriginMap(order0, origin0, contexts0);
    var order: seq<string>, origin: map<string, nat>, contexts: seq<Context> := order0, origin0, contexts0;
    var k := 0;
    while k < |ids|
      invariant 0 <= k <= |ids|
      invariant OriginMap(order, origin, contexts) == MapIds(start, ids[..k], j)
    {
      MapIdsSnoc(start, ids, k, j);
      var id := ids[k];
      if id !in origin {
        order := order + [id];
        origin := origin[id := j];
      } else {
        var c := contexts[origin[id]];
        if c.duplicate {
          contexts := contexts[origin[id] := c.(duplicateCount := c.duplicateCount + 1)];
        } else {
          contexts := contexts[origin[id] := c.(duplicate := true, duplicateCount := 2)];
        }
      }
      k := k + 1;
    }
    assert ids[..k] == ids;
    m := OriginMap(order, origin, contexts);
  }

  lemma MapIdsSnoc(m: OriginMap, ids: seq<string>, k: nat, j: nat)
    requires Indexed(m) && j < |m.contexts| && k < |ids|
    ensures MapIds(m, ids[..k + 1], j) == MapId(MapIds(m, ids[..k], j), ids[k], j)
  {
    assert ids[..k + 1][..k] == ids[..k];
  }

  /** One ID extends the insertion order when it is new. */
  lemma MapIdOrder(m: OriginMap, id: string, j: nat)
    requires Indexed(m) && j < |m.contexts| && Keyed(m)
    ensures Keyed(MapId(m, id, j))
    ensures MapId(m, id, j).order == m.order + (if id in m.order then [] else [id])
  {
  }

  // ---------------------------------------------------------------------
  // What the origin map holds
  // ---------------------------------------------------------------------

  /** The IDs of one row extend the insertion order by those not seen yet. */
  lemma {:induction false} MapIdsOrder(m: OriginMap, ids: seq<string>, j: nat)
    requires Indexed(m) && j < |m.contexts| && Keyed(m)
    ensures Keyed(MapIds(m, ids, j))
    ensures MapIds(m, ids, j).order == m.order + Unseen(ids, set x | x in m.order)
  {
    if |ids| > 0 {
      var p := ids[..|ids| - 1];
      var x := ids[|ids| - 1];
      var seen := set x | x in m.order;
      MapIdsOrder(m, p, j);
      var m1 := MapIds(m, p, j);
      MapIdOrder(m1, x, j);
      UnseenSnoc(ids, seen);
      assert x in m1.order <==> x in seen || x in p;
    }
  }

  /** An ID keeps the context it first got; a new one gets row `j`'s and
      is one of the row's IDs. */
  lemma {:induction false} MapIdsOrigin(m: OriginMap, ids: seq<string>, j: nat)
    requires Indexed(m) && j < |m.contexts|
    ensures var m' := MapIds(m, ids, j);
      (forall id :: id in m.origin ==> id in m'.origin && m'.origin[id] == m.origin[id]) &&
      (forall id :: id in m'.origin && id !in m.origin ==> m'.origin[id] == j && id in ids)
  {
    if |ids| > 0 {
      MapIdsOrigin(m, ids[..|ids| - 1], j);
    }
  }

  /** Only the duplicate marks of the contexts change. */
  lemma {:induction false} MapIdsContexts(m: OriginMap, ids: seq<string>, j: nat)
    requires Indexed(m) && j < |m.contexts|
    ensures forall i :: 0 <= i < |m.contexts| ==> Unmarked(MapIds(m, ids, j).contexts[i]) == Unmarked(m.contexts[i])
  {
    if |ids| > 0 {
      MapIdsContexts(m, ids[..|ids| - 1], j);
    }
  }

  /** Raising one context's extra occurrences by one raises the sum by one. */
  lemma {:induction false} SumExtraUpdate(cs: seq<Context>, i: nat, c: Context)
    requires i < |cs| && Extra(c) == Extra(cs[i]) + 1
    ensures SumExtra(cs[i := c]) == SumExtra(cs) + 1
  {
    var n := |cs| - 1;
    assert cs[i := c][..n] == if i < n then cs[..n][i := c] else cs[..n];
    if i < n {
      SumExtraUpdate(cs[..n], i, c);
    }
  }

  /** Every ID is counted once: as a new entry of the map or as an extra
      occurrence on the context it refers to. */
  lemma MapIdCount(m: OriginMap, id: string, j: nat)
    requires Indexed(m) && j < |m.contexts| && WellMarked(m.contexts)
    ensures var m' := MapId(m, id, j);
      WellMarked(m'.contexts) && |m'.order| + SumExtra(m'.contexts) == |m.order| + SumExtra(m.contexts) + 1
  {
    if id in m.origin {
      var i := m.origin[id];
      var c := m.contexts[i];
      var c' := if c.duplicate then c.(duplicateCount := c.duplicateCount + 1) else c.(duplicate := true, duplicateCount := 2);
      SumExtraUpdate(m.contexts, i, c');
    }
  }

  lemma {:induction false} MapIdsCount(m: OriginMap, ids: seq<string>, j: nat)
    requires Indexed(m) && j < |m.contexts| && WellMarked(m.contexts)
    ensures var m' := MapIds(m, ids, j);
      WellMarked(m'.contexts) && |m'.order| + SumExtra(m'.contexts) == |m.order| + SumExtra(m.contexts) + |ids|
  {
    if |ids| > 0 {
      MapIdsCount(m, ids[..|ids| - 1], j);
      MapIdCount(MapIds(m, ids[..|ids| - 1], j), ids[|ids| - 1], j);
    }
  }

  lemma {:induction false} SumExtraSnoc(cs: seq<Context>, c: Context)
    ensures SumExtra(cs + [c]) == SumExtra(cs) + Extra(c)
  {
    assert (cs + [c])[..|cs|] == cs;
  }

  /** The map's IDs in insertion order are the baseline IDs in order of
      first occurrence (a repeated ID is never entered twice). */
  lemma {:induction false} OriginOrder(cs: seq<Context>, ls: seq<seq<string>>)
    requires |cs| == |ls|
    ensures Keyed(Origins(cs, ls))
    ensures Origins(cs, ls).order == Dedupe(Flatten(ls))
  {
    if |ls| > 0 {
      var n := |ls| - 1;
      var m := Origins(cs[..n], ls[..n]);
      OriginOrder(cs[..n], ls[..n]);
      var s := Flatten(ls[..n]);
      var start := OriginMap(m.order, m.origin, m.contexts + [cs[n]]);
      MapIdsOrder(start, ls[n], n);
      DedupeAppend(s, ls[n]);
      DedupeSameElements(s);
      assert (set x | x in m.order) == (set x | x in s);
    }
  }

  /** An element of a flattening is an element of one of its parts. */
  lemma {:induction false} InFlattenIff<T>(ss: seq<seq<T>>, x: T)
    ensures x in Flatten(ss) <==> exists j :: 0 <= j < |ss| && x in ss[j]
  {
    if |ss| > 0 {
      var n := |ss| - 1;
      var p := ss[..n];
      InFlattenIff(p, x);
      assert forall j :: 0 <= j < n ==> p[j] == ss[j];
    }
  }

  /** Each entry refers to the first of the rows `ls` holding the ID. */
  ghost predicate FirstHolders(m: OriginMap, ls: seq<seq<string>>)
  {
    forall id :: id in m.origin ==>
      m.origin[id] < |ls| && id in ls[m.origin[id]] && forall j :: 0 <= j < m.origin[id] ==> id !in ls[j]
  }

  /** Each ID of the map refers to the context of the first baseline row
      holding it, never to a later one. */
  lemma {:induction false} OriginFirst(cs: seq<Context>, ls: seq<seq<string>>)
    requires |cs| == |ls|
    ensures FirstHolders(Origins(cs, ls), ls)
  {
    if |ls| > 0 {
      var n := |ls| - 1;
      var p := ls[..n];
      var m := Origins(cs[..n], p);
      OriginFirst(cs[..n], p);
      OriginDomain(cs[..n], p);
      var start := OriginMap(m.order, m.origin, m.contexts + [cs[n]]);
      MapIdsOrigin(start, ls[n], n);
      var m' := Origins(cs, ls);
      forall id | id in m'.origin
        ensures m'.origin[id] < |ls| && id in ls[m'.origin[id]] && forall j :: 0 <= j < m'.origin[id] ==> id !in ls[j]
      {
        if id in m.origin {
          var o := m.origin[id];
          assert o < |p| && id in p[o] && forall j :: 0 <= j < o ==> id !in p[j];
          assert m'.origin[id] == o && p[o] == ls[o];
          forall j | 0 <= j < o ensures id !in ls[j] {
            assert p[j] == ls[j];
          }
        } else {
          assert m'.origin[id] == n && id in ls[n];
          forall j | 0 <= j < n ensures id !in ls[j] {
            assert p[j] == ls[j];
          }
        }
      }
    }
  }

  /** The map holds exactly the IDs of the baseline rows. */
  lemma OriginDomain(cs: seq<Context>, ls: seq<seq<string>>)
    requires |cs| == |ls|
    ensures forall id :: id in Origins(cs, ls).origin <==> exists j :: 0 <= j < |ls| && id in ls[j]
  {
    OriginOrder(cs, ls);
    forall id ensures id in Origins(cs, ls).origin <==> exists j :: 0 <= j < |ls| && id in ls[j] {
      InDedupe(Flatten(ls), id);
      InFlattenIff(ls, id);
    }
  }

  /** Each baseline row has its own context, up to the duplicate mark. */
  lemma {:induction false} OriginContexts(cs: seq<Context>, ls: seq<seq<string>>)
    requires |cs| == |ls|
    ensures forall j :: 0 <= j < |ls| ==> Unmarked(Origins(cs, ls).contexts[j]) == Unmarked(cs[j])
  {
    if |ls| > 0 {
      var n := |ls| - 1;
      var m := Origins(cs[..n], ls[..n]);
      OriginContexts(cs[..n], ls[..n]);
      var start := OriginMap(m.order, m.origin, m.contexts + [cs[n]]);
      MapIdsContexts(start, ls[n], n);
    }
  }

  /** Every baseline ID is accounted for once: the map's entries plus the
      extra occurrences the duplicate marks count are all the IDs. */
  lemma {:induction false} OriginCount(cs: seq<Context>, ls: seq<seq<string>>)
    requires |cs| == |ls| && WellMarked(cs)
    ensures var m := Origins(cs, ls);
      WellMarked(m.contexts) && |m.order| + SumExtra(m.contexts) == |Flatten(ls)| + SumExtra(cs)
  {
    if |ls| > 0 {
      var n := |ls| - 1;
      var m := Origins(cs[..n], ls[..n]);
      assert WellMarked(cs[..n]);
      OriginCount(cs[..n], ls[..n]);
      var cs' := m.contexts + [cs[n]];
      SumExtraSnoc(m.contexts, cs[n]);
      SumExtraSnoc(cs[..n], cs[n]);
      assert cs[..n] + [cs[n]] == cs;
      MapIdsCount(OriginMap(m.order, m.origin, cs'), ls[n], n);
    }
  }

  // ---------------------------------------------------------------------
  // trace_container_movements
  // ---------------------------------------------------------------------

  /** Python `==` on carrier cells: a NaN cell equals nothing, not even NaN. */
  predicate SameCarrier(a: Option<string>, b: Option<string>)
  {
    a.Some? && a == b
  }

  /** The carrier an ID of the map comes from. */
  function OriginCarrier(m: OriginMap, id: string): Option<string>
    requires Indexed(m) && id in m.origin
  {
    m.contexts[m.origin[id]].carrier
  }

  /** The ID stayed with the carrier that first held it. */
  predicate IsKept(m: OriginMap, cur: Option<string>, id: string)
  {
    id in m.origin && m.origin[id] < |m.contexts| && SameCarrier(m.contexts[m.origin[id]].carrier, cur)
  }

  /** The ID moved here from another carrier. */
  predicate IsFlipped(m: OriginMap, cur: Option<string>, id: string)
  {
    id in m.origin && m.origin[id] < |m.contexts| && !SameCarrier(m.contexts[m.origin[id]].carrier, cur)
  }

  function KeptTest(m: OriginMap, cur: Option<string>): string -> bool
  {
    id => IsKept(m, cur, id)
  }

  function FlippedTest(m: OriginMap, cur: Option<string>): string -> bool
  {
    id => IsFlipped(m, cur, id)
  }

  function UnknownTest(m: OriginMap): string -> bool
  {
    id => id !in m.origin
  }

  /** A flipped ID and the carrier it came from. */
  datatype Flip = Flip(id: string, from: Option<string>)

  function FlipIds(fs: seq<Flip>): (ids: seq<string>)
    ensures |ids| == |fs| && forall k :: 0 <= k < |fs| ==> ids[k] == fs[k].id
  {
    seq(|fs|, k requires 0 <= k < |fs| => fs[k].id)
  }

  function Froms(fs: seq<Flip>): (cs: seq<Option<string>>)
    ensures |cs| == |fs| && forall k :: 0 <= k < |fs| ==> cs[k] == fs[k].from
  {
    seq(|fs|, k requires 0 <= k < |fs| => fs[k].from)
  }

  /** The per-row lists of the trace. */
  datatype Trace = Trace(kept: seq<string>, flipped: seq<Flip>, unknown: seq<string>)

  /** One ID of a scenario row whose carrier is `cur`. */
  function TraceId(t: Trace, m: OriginMap, cur: Option<string>, id: string): Trace
    requires Indexed(m)
  {
    if id !in m.origin then Trace(t.kept, t.flipped, t.unknown + [id])
    else if SameCarrier(OriginCarrier(m, id), cur) then Trace(t.kept + [id], t.flipped, t.unknown)
    else Trace(t.kept, t.flipped + [Flip(id, OriginCarrier(m, id))], t.unknown)
  }

  /** The loop over a row's IDs. */
  function TraceIds(m: OriginMap, cur: Option<string>, ids: seq<string>): Trace
    requires Indexed(m)
  {
    if |ids| == 0 then Trace([], [], [])
    else TraceId(TraceIds(m, cur, ids[..|ids| - 1]), m, cur, ids[|ids| - 1])
  }

  /** `flip_summary`: a dictionary from origin carrier to count, its keys
      in insertion order. */
  datatype Summary = Summary(sources: seq<Option<string>>, counts: map<Option<string>, nat>)

  /** One more ID flipped away from `c`. */
  function Bump(s: Summary, c: Option<string>): Summary
  {
    if c in s.counts then Summary(s.sources, s.counts[c := s.counts[c] + 1])
    else Summary(s.sources + [c], s.counts[c := 1])
  }

  /** The summary of the flips from the carriers `cs`, in order. */
  function Summarize(cs: seq<Option<string>>): Summary
  {
    if |cs| == 0 then Summary([], map[])
    else Bump(Summarize(cs[..|cs| - 1]), cs[|cs| - 1])
  }

  /** The loop over a row's IDs, appending to the lists
      and bumping the summary in place. */
  method TraceRowIds(m: OriginMap, cur: Option<string>, ids: seq<string>) returns (t: Trace, s: Summary)
    requires Indexed(m)
    ensures t == TraceIds(m, cur, ids)
    ensures s == Summarize(Froms(t.flipped))
  {
    var kept: seq<string> := [];
    var flipped: seq<Flip> := [];
    var unknown: seq<string> := [];
    var sources: seq<Option<string>> := [];
    var counts: map<Option<string>, nat> := map[];
    var k := 0;
    while k < |ids|
      invariant 0 <= k <= |ids|
      invariant Trace(kept, flipped, unknown) == TraceIds(m, cur, ids[..k])
      invariant Summary(sources, counts) == Summarize(Froms(flipped))
    {
      assert ids[..k + 1][..k] == ids[..k];
      var id := ids[k];
      if id !in m.origin {
        unknown := unknown + [id];
      } else {
        var from := m.contexts[m.origin[id]].carrier;
        if SameCarrier(from, cur) {
          kept := kept + [id];
        } else {
          assert Froms(flipped + [Flip(id, from)])[..|flipped|] == Froms(flipped);
          flipped := flipped + [Flip(id, from)];
          if from !in counts {
            sources := sources + [from];
          }
          counts := counts[from := (if from in counts then counts[from] else 0) + 1];
        }
      }
      k := k + 1;
    }
    assert ids[..k] == ids;
    t := Trace(kept, flipped, unknown);
    s := Summary(sources, counts);
  }

  /** The kept IDs are those whose first carrier is the row's. */
  lemma {:induction false} TraceKept(m: OriginMap, cur: Option<string>, ids: seq<string>)
    requires Indexed(m)
    ensures TraceIds(m, cur, ids).kept == Filter(ids, KeptTest(m, cur))
  {
    if |ids| > 0 {
      var p := ids[..|ids| - 1];
      TraceKept(m, cur, p);
      var x := ids[|ids| - 1];
      FilterSnoc(ids, KeptTest(m, cur));
    }
  }

  /** The unknown IDs are those the baseline never held. */
  lemma {:induction false} TraceUnknown(m: OriginMap, cur: Option<string>, ids: seq<string>)
    requires Indexed(m)
    ensures TraceIds(m, cur, ids).unknown == Filter(ids, UnknownTest(m))
  {
    if |ids| > 0 {
      var p := ids[..|ids| - 1];
      TraceUnknown(m, cur, p);
      var x := ids[|ids| - 1];
      FilterSnoc(ids, UnknownTest(m));
    }
  }

  /** The flipped IDs are those with another first carrier. */
  lemma FlipIdsSnoc(fs: seq<Flip>, f: Flip)
    ensures FlipIds(fs + [f]) == FlipIds(fs) + [f.id]
  {
  }

  lemma {:induction false} TraceFlipped(m: OriginMap, cur: Option<string>, ids: seq<string>)
    requires Indexed(m)
    ensures FlipIds(TraceIds(m, cur, ids).flipped) == Filter(ids, FlippedTest(m, cur))
  {
    if |ids| > 0 {
      var p := ids[..|ids| - 1];
      TraceFlipped(m, cur, p);
      var x := ids[|ids| - 1];
      FilterSnoc(ids, FlippedTest(m, cur));
      if IsFlipped(m, cur, x) {
        FlipIdsSnoc(TraceIds(m, cur, p).flipped, Flip(x, OriginCarrier(m, x)));
      }
    }
  }

  /** Each flip records the carrier that first held the ID. */
  predicate FromOrigin(m: OriginMap, fs: seq<Flip>)
    requires Indexed(m)
  {
    forall k :: 0 <= k < |fs| ==> fs[k].id in m.origin && fs[k].from == OriginCarrier(m, fs[k].id)
  }

  /** Each flip of the trace records the carrier that first held the ID. */
  lemma {:induction false} TraceFroms(m: OriginMap, cur: Option<string>, ids: seq<string>)
    requires Indexed(m)
    ensures FromOrigin(m, TraceIds(m, cur, ids).flipped)
  {
    if |ids| > 0 {
      TraceFroms(m, cur, ids[..|ids| - 1]);
    }
  }

  /** `total_kept + total_flipped + total_unknown == current_count`. */
  lemma {:induction false} TraceSizes(m: OriginMap, cur: Option<string>, ids: seq<string>)
    requires Indexed(m)
    ensures var t := TraceIds(m, cur, ids); |t.kept| + |t.flipped| + |t.unknown| == |ids|
  {
    if |ids| > 0 {
      TraceSizes(m, cur, ids[..|ids| - 1]);
    }
  }

  /** The summary's total over the keys `keys`. */
  function SumOver(keys: seq<Option<string>>, counts: map<Option<string>, nat>): int
  {
    if |keys| == 0 then 0
    else SumOver(keys[..|keys| - 1], counts) + (if keys[|keys| - 1] in counts then counts[keys[|keys| - 1]] else 0)
  }

  /** Bumping the count of one key raises the total by one. */
  lemma {:induction false} SumOverBump(keys: seq<Option<string>>, counts: map<Option<string>, nat>, c: Option<string>, v: nat)
    requires NoDup(keys)
    requires v == (if c in counts then counts[c] else 0) + 1
    ensures SumOver(keys, counts[c := v]) == SumOver(keys, counts) + (if c in keys then 1 else 0)
  {
    if |keys| > 0 {
      var p := keys[..|keys| - 1];
      assert NoDup(p);
      SumOverBump(p, counts, c, v);
      assert c in keys <==> c in p || c == keys[|keys| - 1];
    }
  }

  /** `flip_summary`'s keys are the origin carriers of the flips, in
      order of first flip. */
  lemma {:induction false} SummarySources(cs: seq<Option<string>>)
    ensures var s := Summarize(cs);
      s.sources == Dedupe(cs) && forall c :: c in s.counts <==> c in s.sources
  {
    if |cs| > 0 {
      var p := cs[..|cs| - 1];
      SummarySources(p);
      DedupeSnoc(cs);
      InDedupe(p, cs[|cs| - 1]);
    }
  }

  /** `flip_summary[c]` is the number of flips away from `c`. */
  lemma {:induction false} SummaryCounts(cs: seq<Option<string>>)
    ensures var s := Summarize(cs);
      forall c :: c in s.counts ==> s.counts[c] == multiset(cs)[c]
  {
    if |cs| > 0 {
      var p := cs[..|cs| - 1];
      SummaryCounts(p);
      SummarySources(p);
      InDedupe(p, cs[|cs| - 1]);
      assert cs == p + [cs[|cs| - 1]];
    }
  }

  /** The summary's keys are distinct and are the keys of its counts. */
  lemma SummaryKeys(cs: seq<Option<string>>)
    ensures var s := Summarize(cs);
      NoDup(s.sources) && forall c :: c in s.counts <==> c in s.sources
  {
    SummarySources(cs);
  }

  /** The counts of `flip_summary` add up to the number of flips. */
  lemma {:induction false} SummaryTotal(cs: seq<Option<string>>)
    ensures var s := Summarize(cs); SumOver(s.sources, s.counts) == |cs|
  {
    if |cs| > 0 {
      var p := cs[..|cs| - 1];
      var c := cs[|cs| - 1];
      SummaryTotal(p);
      SummaryKeys(p);
      var s := Summarize(p);
      var v := (if c in s.counts then s.counts[c] else 0) + 1;
      SumOverBump(s.sources, s.counts, c, v);
      if c in s.counts {
        assert Summarize(cs) == Summary(s.sources, s.counts[c := v]);
      } else {
        assert Summarize(cs) == Summary(s.sources + [c], s.counts[c := v]);
        assert (s.sources + [c])[..|s.sources|] == s.sources;
        assert SumOver(s.sources + [c], s.counts[c := v]) == SumOver(s.sources, s.counts[c := v]) + 1;
      }
    }
  }

  /** `trace_container_movements`'s default grouping columns: port, lane,
      facility and week, Category first and Terminal last when the
      scenario has them, each kept only when present. */
  function TracerGroupColumns(present: set<Column>): (cols: seq<Column>)
    ensures forall c :: c in cols <==> c in present && (c == PORT || c == LANE || c == FACILITY || c == WEEK || c == CATEGORY || c == TERMINAL)
    ensures CATEGORY in present ==> cols[0] == CATEGORY
  {
    var c1 := if CATEGORY in present then Insert(DEFAULT_GROUPING, 0, CATEGORY) else DEFAULT_GROUPING;
    var c2 := if TERMINAL in present then c1 + [TERMINAL] else c1;
    KeepPresent(c2, present)
  }

  /** The context entry a grouping column reads; the
      week's entry is the raw `Week Number` cell. */
  function ContextEntry(ctx: Context, col: Column): Value
  {
    match col
    case Port => ctx.port
    case Lane => ctx.lane
    case Facility => ctx.facility
    case Terminal => ctx.terminal
    case Category => ctx.category
    case Week => ctx.weekNumber
    case _ => Str("")
  }

  /** The group key of a context. */
  function OriginKey(ctx: Context, cols: seq<Column>): (k: seq<Value>)
    ensures |k| == |cols|
  {
    seq(|cols|, i requires 0 <= i < |cols| => ContextEntry(ctx, cols[i]))
  }

  type GroupState = map<seq<Value>, map<Option<string>, seq<string>>>

  /** One ID of the map filed under its group key and origin carrier. */
  function File(st: GroupState, gk: seq<Value>, c: Option<string>, id: string): GroupState
  {
    var inner := if gk in st then st[gk] else map[];
    st[gk := inner[c := (if c in inner then inner[c] else []) + [id]]]
  }

  /** `original_group_state` after the IDs `ids` of the map. */
  function StateOf(m: OriginMap, cols: seq<Column>, ids: seq<string>): GroupState
    requires Indexed(m)
  {
    if |ids| == 0 then map[]
    else
      var id := ids[|ids| - 1];
      var st := StateOf(m, cols, ids[..|ids| - 1]);
      if id in m.origin then File(st, OriginKey(m.contexts[m.origin[id]], cols), OriginCarrier(m, id), id) else st
  }

  /** The loop over the origin map. */
  method BuildGroupState(m: OriginMap, cols: seq<Column>) returns (st: GroupState)
    requires Indexed(m) && Keyed(m)
    ensures st == StateOf(m, cols, m.order)
  {
    st := map[];
    var k := 0;
    while k < |m.order|
      invariant 0 <= k <= |m.order|
      invariant st == StateOf(m, cols, m.order[..k])
    {
      assert m.order[..k + 1][..k] == m.order[..k];
      var id := m.order[k];
      assert id in m.origin;
      var info := m.contexts[m.origin[id]];
      var gk := OriginKey(info, cols);
      var inner := if gk in st then st[gk] else map[];
      var held := if info.carrier in inner then inner[info.carrier] else [];
      assert StateOf(m, cols, m.order[..k + 1]) == File(st, gk, info.carrier, id);
      st := st[gk := inner[info.carrier := held + [id]]];
      k := k + 1;
    }
    assert m.order[..k] == m.order;
  }

  /** The IDs of the map, in map order, whose origin has group key `gk`
      and carrier `c`. */
  predicate HeldBy(m: OriginMap, cols: seq<Column>, gk: seq<Value>, c: Option<string>, id: string)
  {
    id in m.origin && m.origin[id] < |m.contexts| &&
    OriginKey(m.contexts[m.origin[id]], cols) == gk && m.contexts[m.origin[id]].carrier == c
  }

  function HeldTest(m: OriginMap, cols: seq<Column>, gk: seq<Value>, c: Option<string>): string -> bool
  {
    id => HeldBy(m, cols, gk, c, id)
  }

  /** The state files under (`gk`, `c`) exactly the IDs of that group and
      carrier, in map order, and has no entry for a pair with none. */
  /** Filing an ID under (`gx`, `cx`) appends it there and leaves every
      other pair as it was. */
  lemma FileLookup(st: GroupState, gx: seq<Value>, cx: Option<string>, x: string, gk: seq<Value>, c: Option<string>)
    ensures var st' := File(st, gx, cx, x);
      if gx == gk && cx == c then
        gk in st' && c in st'[gk] && st'[gk][c] == (if gk in st && c in st[gk] then st[gk][c] else []) + [x]
      else
        (gk in st' && c in st'[gk]) == (gk in st && c in st[gk]) &&
        (gk in st && c in st[gk] ==> st'[gk][c] == st[gk][c])
  {
  }

  lemma {:induction false} StateLookup(m: OriginMap, cols: seq<Column>, ids: seq<string>, gk: seq<Value>, c: Option<string>)
    requires Indexed(m)
    ensures var st := StateOf(m, cols, ids);
      if gk in st && c in st[gk] then st[gk][c] == Filter(ids, HeldTest(m, cols, gk, c)) && st[gk][c] != []
      else Filter(ids, HeldTest(m, cols, gk, c)) == []
  {
    if |ids| > 0 {
      var p := ids[..|ids| - 1];
      var x := ids[|ids| - 1];
      StateLookup(m, cols, p, gk, c);
      FilterSnoc(ids, HeldTest(m, cols, gk, c));
      if x in m.origin {
        FileLookup(StateOf(m, cols, p), OriginKey(m.contexts[m.origin[x]], cols), OriginCarrier(m, x), x, gk, c);
      }
    }
  }

  /** `original_group_state.get(group_key, {}).get(current_carrier, [])`;
      a NaN carrier of the scenario finds nothing. */
  function Held(st: GroupState, gk: seq<Value>, cur: Option<string>): seq<string>
  {
    if cur.Some? && gk in st && cur in st[gk] then st[gk][cur] else []
  }

  /** `[cid for cid, c in flipped if c == carrier]`. */
  function FlipsFrom(fs: seq<Flip>, c: Option<string>): seq<string>
  {
    if |fs| == 0 then []
    else FlipsFrom(fs[..|fs| - 1], c) + if SameCarrier(fs[|fs| - 1].from, c) then [fs[|fs| - 1].id] else []
  }

  /** The IDs listed under a source are as many as the summary counts for
      it, and none are listed under a NaN source. */
  lemma {:induction false} FlipsFromCount(fs: seq<Flip>, c: Option<string>)
    ensures |FlipsFrom(fs, c)| == if c.Some? then multiset(Froms(fs))[c] else 0
  {
    if |fs| > 0 {
      var p := fs[..|fs| - 1];
      FlipsFromCount(p, c);
      assert Froms(fs) == Froms(p) + [fs[|fs| - 1].from];
    }
  }

  /** One row's trace result. */
  datatype RowTrace = RowTrace(trace: Trace, summary: Summary, bySource: map<Option<string>, seq<string>>,
                               originalCount: nat, currentCount: nat, allOriginal: seq<string>)

  /** The trace of a scenario row against the origin map and the group
      state. */
  function TraceRow(m: OriginMap, st: GroupState, columns: set<Column>, cols: seq<Column>, r: Shipment): RowTrace
    requires Indexed(m)
  {
    var cur := CarrierCell(columns, r);
    var ids := RowIds(columns, r);
    var t := TraceIds(m, cur, ids);
    var s := Summarize(Froms(t.flipped));
    var held := Held(st, Key(r, cols), cur);
    RowTrace(t, s, map c | c in s.counts :: FlipsFrom(t.flipped, c), |held|, |ids|, held)
  }

  /** The body of the row loop. */
  method TraceOneRow(m: OriginMap, st: GroupState, columns: set<Column>, cols: seq<Column>, r: Shipment) returns (res: RowTrace)
    requires Indexed(m)
    ensures res == TraceRow(m, st, columns, cols, r)
  {
    var cur := CarrierCell(columns, r);
    var ids := RowIds(columns, r);
    var t, s := TraceRowIds(m, cur, ids);
    var bySource := map c | c in s.counts :: FlipsFrom(t.flipped, c);
    var held := Held(st, Key(r, cols), cur);
    res := RowTrace(t, s, bySource, |held|, |ids|, held);
  }

  /** `results` holds the trace of each of `rows`, in order. */
  ghost predicate AllTraced(results: seq<RowTrace>, m: OriginMap, st: GroupState, columns: set<Column>, cols: seq<Column>, rows: seq<Shipment>)
    requires Indexed(m)
  {
    |results| == |rows| && forall i :: 0 <= i < |rows| ==> results[i] == TraceRow(m, st, columns, cols, rows[i])
  }

  lemma TracedSnoc(results: seq<RowTrace>, res: RowTrace, m: OriginMap, st: GroupState, columns: set<Column>, cols: seq<Column>, rows: seq<Shipment>, k: nat)
    requires Indexed(m) && k < |rows|
    requires AllTraced(results, m, st, columns, cols, rows[..k])
    requires res == TraceRow(m, st, columns, cols, rows[k])
    ensures AllTraced(results + [res], m, st, columns, cols, rows[..k + 1])
  {
    forall i | 0 <= i < k + 1
      ensures (results + [res])[i] == TraceRow(m, st, columns, cols, rows[..k + 1][i])
    {
      if i < k {
        assert rows[..k][i] == rows[..k + 1][i];
      }
    }
  }

  /** `trace_container_movements` with the default grouping columns: the
      group state is built once, then every scenario row is traced. */
  method TraceContainerMovements(columns: set<Column>, rows: seq<Shipment>, m: OriginMap) returns (results: seq<RowTrace>)
    requires Indexed(m) && Keyed(m)
    ensures |results| == |rows|
    ensures forall k :: 0 <= k < |rows| ==>
      results[k] == TraceRow(m, StateOf(m, TracerGroupColumns(columns), m.order), columns, TracerGroupColumns(columns), rows[k])
  {
    var cols := TracerGroupColumns(columns);
    var st := BuildGroupState(m, cols);
    results := [];
    var k := 0;
    while k < |rows|
      invariant 0 <= k <= |rows|
      invariant AllTraced(results, m, st, columns, cols, rows[..k])
    {
      var res := TraceOneRow(m, st, columns, cols, rows[k]);
      TracedSnoc(results, res, m, st, columns, cols, rows, k);
      results := results + [res];
      k := k + 1;
    }
    assert rows[..k] == rows;
  }

  /** A row's IDs split into kept, flipped and unknown ones, as many in
      all as the row has. */
  lemma TraceRowLists(m: OriginMap, st: GroupState, columns: set<Column>, cols: seq<Column>, r: Shipment)
    requires Indexed(m)
    ensures var res := TraceRow(m, st, columns, cols, r);
      var ids := RowIds(columns, r);
      var cur := CarrierCell(columns, r);
      res.trace.kept == Filter(ids, KeptTest(m, cur)) &&
      FlipIds(res.trace.flipped) == Filter(ids, FlippedTest(m, cur)) &&
      res.trace.unknown == Filter(ids, UnknownTest(m)) &&
      FromOrigin(m, res.trace.flipped) &&
      |res.trace.kept| + |res.trace.flipped| + |res.trace.unknown| == res.currentCount
  {
    var ids := RowIds(columns, r);
    var cur := CarrierCell(columns, r);
    TraceKept(m, cur, ids);
    TraceFlipped(m, cur, ids);
    TraceUnknown(m, cur, ids);
    TraceFroms(m, cur, ids);
    TraceSizes(m, cur, ids);
  }

  /** A row's `flip_summary` counts its flips per source in order of first
      flip, adds up to `total_flipped`, and lists under each source as
      many IDs as it counts (none under a NaN source). */
  lemma TraceRowSummary(m: OriginMap, st: GroupState, columns: set<Column>, cols: seq<Column>, r: Shipment)
    requires Indexed(m)
    ensures var res := TraceRow(m, st, columns, cols, r);
      var fs := res.trace.flipped;
      res.summary.sources == Dedupe(Froms(fs)) &&
      (forall c :: c in res.summary.counts <==> c in res.summary.sources) &&
      (forall c :: c in res.summary.counts ==> res.summary.counts[c] == multiset(Froms(fs))[c]) &&
      SumOver(res.summary.sources, res.summary.counts) == |fs| &&
      (forall c :: c in res.bySource ==> |res.bySource[c]| == if c.Some? then res.summary.counts[c] else 0)
  {
    var res := TraceRow(m, st, columns, cols, r);
    var fs := res.trace.flipped;
    SummarySources(Froms(fs));
    SummaryCounts(Froms(fs));
    SummaryTotal(Froms(fs));
    forall c | c in res.bySource
      ensures |res.bySource[c]| == if c.Some? then res.summary.counts[c] else 0
    {
      FlipsFromCount(fs, c);
    }
  }

  /** `original_count` counts, and `all_original_containers` lists in map
      order, the IDs whose origin lies in the row's group with the row's
      carrier; a NaN carrier of the row has none. */
  lemma TraceRowOriginal(m: OriginMap, columns: set<Column>, cols: seq<Column>, r: Shipment)
    requires Indexed(m)
    ensures var res := TraceRow(m, StateOf(m, cols, m.order), columns, cols, r);
      var cur := CarrierCell(columns, r);
      res.allOriginal == (if cur.Some? then Filter(m.order, HeldTest(m, cols, Key(r, cols), cur)) else []) &&
      res.originalCount == |res.allOriginal|
  {
    StateLookup(m, cols, m.order, Key(r, cols), CarrierCell(columns, r));
  }

  // ---------------------------------------------------------------------
  // format_flip_details
  // ---------------------------------------------------------------------

  /** How a carrier cell prints; NaN prints as `nan`. */
  function CarrierText(c: Option<string>): string
  {
    if c.Some? then c.value else "nan"
  }

  /** An entry of `flip_summary`. */
  datatype SourceCount = SourceCount(carrier: Option<string>, count: nat)

  function CountOf(x: SourceCount): int
  {
    x.count
  }

  /** `flip_summary.items()`, in key order. */
  function SourceItems(s: Summary): (xs: seq<SourceCount>)
    ensures |xs| == |s.sources|
    ensures forall k :: 0 <= k < |xs| ==> xs[k].carrier == s.sources[k]
  {
    seq(|s.sources|, k requires 0 <= k < |s.sources| =>
      SourceCount(s.sources[k], if s.sources[k] in s.counts then s.counts[s.sources[k]] else 0))
  }

  /** `sorted(flip_summary.items(), key=count, reverse=True)`: a stable sort. */
  function SortedFlips(s: Summary): seq<SourceCount>
  {
    SortDesc(SourceItems(s), CountOf)
  }

  /** The counts of entries added up. */
  function Total(xs: seq<SourceCount>): nat
  {
    if |xs| == 0 then 0 else xs[0].count + Total(xs[1..])
  }

  lemma {:induction false} TotalAppend(a: seq<SourceCount>, b: seq<SourceCount>)
    ensures Total(a + b) == Total(a) + Total(b)
  {
    if |a| > 0 {
      assert (a + b)[1..] == a[1..] + b;
      TotalAppend(a[1..], b);
    } else {
      assert a + b == b;
    }
  }

  lemma {:induction false} TotalInsert(x: SourceCount, s: seq<SourceCount>)
    ensures Total(InsertDesc(x, s, CountOf)) == x.count + Total(s)
  {
    if |s| > 0 && CountOf(s[0]) >= CountOf(x) {
      TotalInsert(x, s[1..]);
    }
  }

  /** Sorting keeps the total. */
  lemma {:induction false} TotalSorted(s: seq<SourceCount>)
    ensures Total(SortDesc(s, CountOf)) == Total(s)
  {
    if |s| > 0 {
      var p := s[..|s| - 1];
      var x := s[|s| - 1];
      assert SortDesc(s, CountOf) == InsertDesc(x, SortDesc(p, CountOf), CountOf);
      TotalSorted(p);
      TotalInsert(x, SortDesc(p, CountOf));
      assert Total(s) == Total(p) + x.count by {
        TotalAppend(p, [x]);
        assert p + [x] == s;
      }
    }
  }

  /** The total of the items is the summary's total. */
  lemma {:induction false} TotalItems(s: Summary)
    ensures Total(SourceItems(s)) == SumOver(s.sources, s.counts)
    decreases |s.sources|
  {
    if |s.sources| > 0 {
      var p := Summary(s.sources[..|s.sources| - 1], s.counts);
      TotalItems(p);
      assert SourceItems(s) == SourceItems(p) + [SourceItems(s)[|s.sources| - 1]];
      TotalAppend(SourceItems(p), [SourceItems(s)[|s.sources| - 1]]);
    }
  }

  /** The sorted gains of a traced row add up to `total_flipped`, are
      ordered by count, and name each source once. */
  lemma SortedFlipsTotal(fs: seq<Flip>)
    ensures var sorted := SortedFlips(Summarize(Froms(fs)));
      Total(sorted) == |fs| && NonIncreasingBy(sorted, CountOf) && |sorted| == |Dedupe(Froms(fs))|
  {
    var s := Summarize(Froms(fs));
    SummaryTotal(Froms(fs));
    SummarySources(Froms(fs));
    TotalItems(s);
    TotalSorted(SourceItems(s));
  }

  /** ` (+n)`. */
  function Plus(n: nat): string
  {
    " (+" + NatToString(n) + ")"
  }

  /** `flip_containers_by_source.get(carrier, [])`. */
  function SourceIds(res: RowTrace, c: Option<string>): seq<string>
  {
    if c in res.bySource then res.bySource[c] else []
  }

  /** One source of several: `carrier (+n) [a, b...]`, or without the IDs. */
  function GainEntry(res: RowTrace, x: SourceCount, showIds: bool): string
  {
    var head := CarrierText(x.carrier) + Plus(x.count);
    if showIds then
      var ids := SourceIds(res, x.carrier);
      head + " [" + Join(", ", PyTake(ids, 2)) + (if |ids| > 2 then "..." else "") + "]"
    else head
  }

  function GainEntries(res: RowTrace, xs: seq<SourceCount>, showIds: bool): (es: seq<string>)
    ensures |es| == |xs|
  {
    seq(|xs|, k requires 0 <= k < |xs| => GainEntry(res, xs[k], showIds))
  }

  /** The sources shown one by one, and the rest collapsed into
      `k others (+m)` when there are more than `maxCarriers`. */
  function GainList(res: RowTrace, sorted: seq<SourceCount>, showIds: bool, maxCarriers: nat): seq<string>
  {
    if |sorted| <= maxCarriers then GainEntries(res, sorted, showIds)
    else
      GainEntries(res, sorted[..maxCarriers], showIds) +
      [NatToString(|sorted| - maxCarriers) + " others" + Plus(Total(sorted[maxCarriers..]))]
  }

  /** The gains part of the changes. */
  function Gains(res: RowTrace, showIds: bool, maxCarriers: nat): seq<string>
  {
    if |res.trace.flipped| == 0 then []
    else
      var sorted := SortedFlips(res.summary);
      if |sorted| == 1 then
        var x := sorted[0];
        if showIds then
          var ids := SourceIds(res, x.carrier);
          ["From " + CarrierText(x.carrier) + Plus(x.count) + " [" + Join(", ", PyTake(ids, 2)) +
           (if |ids| > 2 then "... (" + NatToString(x.count) + " total)" else "") + "]"]
        else ["From " + CarrierText(x.carrier) + Plus(x.count)]
      else ["From " + Join(" + ", GainList(res, sorted, showIds, maxCarriers))]
  }

  /** The IDs the row's carrier had in the group and does not keep. */
  function LostIds(res: RowTrace): seq<string>
  {
    Filter(res.allOriginal, (id: string) => id !in res.trace.kept)
  }

  /** The losses part of the changes. */
  function Losses(res: RowTrace, showIds: bool): seq<string>
  {
    var lost := LostIds(res);
    var n := |lost|;
    if n == 0 then []
    else if showIds then
      ["Lost " + NatToString(n) + " [" + Join(", ", PyTake(lost, 2)) +
       (if n > 2 then "... (" + NatToString(n) + " total)" else "") + "]"]
    else ["Lost " + NatToString(n)]
  }

  /** The unknown-IDs part of the changes. */
  function News(res: RowTrace): seq<string>
  {
    if |res.trace.unknown| > 0 then ["New (" + NatToString(|res.trace.unknown|) + ")"] else []
  }

  /** Part 1. */
  function HadText(res: RowTrace, showIds: bool): string
  {
    var n := res.originalCount;
    var all := res.allOriginal;
    if n > 0 then
      if showIds && all != [] then
        "Had " + NatToString(n) + " [" + Join(", ", PyTake(all, 3)) +
        (if |all| > 3 then "... (" + NatToString(n) + " total)" else "") + "]"
      else "Had " + NatToString(n)
    else "Had 0"
  }

  /** The carrier kept exactly what it had, with nothing flipped in and
      nothing unknown. */
  predicate KeptAll(res: RowTrace)
  {
    res.originalCount > 0 && res.originalCount == res.currentCount &&
    |res.trace.kept| == res.currentCount && |res.trace.flipped| == 0 && |res.trace.unknown| == 0
  }

  /** The displayed parts, joined by single spaces. */
  function FlipParts(res: RowTrace, showIds: bool, maxCarriers: nat): seq<string>
  {
    var changes := Gains(res, showIds, maxCarriers) + Losses(res, showIds) + News(res);
    [HadText(res, showIds)] +
    (if KeptAll(res) then ["(kept all)"] else if changes != [] then [" → " + Join(", ", changes)] else []) +
    ["→ Now " + NatToString(res.currentCount)]
  }

  /** `format_flip_details`: the rendering starts with `Had N`, N the
      original count, and ends with `→ Now T`, T the current count. */
  function FormatFlipDetails(res: RowTrace, showIds: bool, maxCarriers: nat): (out: string)
    ensures var head := "Had " + NatToString(res.originalCount);
            var tail := "→ Now " + NatToString(res.currentCount);
            StartsWith(out, head) && |tail| <= |out| && out[|out| - |tail|..] == tail
  {
    var parts := FlipParts(res, showIds, maxCarriers);
    JoinEnds(" ", parts);
    HadStarts(res, showIds);
    StartsWithTrans(Join(" ", parts), parts[0], "Had " + NatToString(res.originalCount));
    Join(" ", parts)
  }

  lemma {:induction false} JoinEnds(sep: string, xs: seq<string>)
    requires |xs| >= 2
    ensures StartsWith(Join(sep, xs), xs[0])
    ensures var j := Join(sep, xs); var z := xs[|xs| - 1];
      |z| <= |j| && j[|j| - |z|..] == z
  {
    JoinAppend(sep, xs[..|xs| - 1], [xs[|xs| - 1]]);
    assert xs[..|xs| - 1] + [xs[|xs| - 1]] == xs;
    var j := Join(sep, xs);
    assert j == xs[0] + (sep + Join(sep, xs[1..]));
    assert j[..|xs[0]|] == xs[0];
  }

  lemma StartsWithTrans(a: string, b: string, c: string)
    requires StartsWith(a, b) && StartsWith(b, c)
    ensures StartsWith(a, c)
  {
    assert a[..|c|] == a[..|b|][..|c|];
  }

  lemma HadStarts(res: RowTrace, showIds: bool)
    ensures StartsWith(HadText(res, showIds), "Had " + NatToString(res.originalCount))
  {
    var h := "Had " + NatToString(res.originalCount);
    var t := HadText(res, showIds);
    assert t[..|h|] == h;
  }

  /** The second part is `(kept all)` exactly when the carrier kept all
      it had and nothing else changed; otherwise, when there are changes,
      it lists the gains, then the losses, then the unknown IDs. */
  lemma KeptAllShown(res: RowTrace, showIds: bool, maxCarriers: nat)
    ensures var parts := FlipParts(res, showIds, maxCarriers);
      var changes := Gains(res, showIds, maxCarriers) + Losses(res, showIds) + News(res);
      (KeptAll(res) <==> parts[1] == "(kept all)") &&
      (!KeptAll(res) && changes != [] ==> parts[1] == " → " + Join(", ", changes)) &&
      (!KeptAll(res) && changes == [] ==> |parts| == 2)
  {
    var parts := FlipParts(res, showIds, maxCarriers);
    if !KeptAll(res) {
      assert parts[1][0] != '(';
    }
  }

  /** A loss is reported, as `Lost n`, exactly when the carrier had IDs in
      the group that it no longer carries. */
  lemma LossShown(res: RowTrace, showIds: bool)
    ensures var ls := Losses(res, showIds);
      (ls != [] <==> |LostIds(res)| > 0) &&
      (ls != [] ==> |ls| == 1 && StartsWith(ls[0], "Lost " + NatToString(|LostIds(res)|)))
  {
    var ls := Losses(res, showIds);
    if ls != [] {
      var h := "Lost " + NatToString(|LostIds(res)|);
      assert ls[0][..|h|] == h;
    }
  }

  /** The lost IDs of a traced row are the IDs the baseline held in the
      row's group with the row's carrier that the row no longer carries. */
  lemma LostAreMissing(m: OriginMap, columns: set<Column>, cols: seq<Column>, r: Shipment, id: string)
    requires Indexed(m) && Keyed(m)
    ensures var res := TraceRow(m, StateOf(m, cols, m.order), columns, cols, r);
      var cur := CarrierCell(columns, r);
      id in LostIds(res) <==> cur.Some? && HeldBy(m, cols, Key(r, cols), cur, id) && id !in RowIds(columns, r)
  {
    var cur := CarrierCell(columns, r);
    TraceRowOriginal(m, columns, cols, r);
    TraceRowLists(m, StateOf(m, cols, m.order), columns, cols, r);
  }

  /** When sources are collapsed, the shown ones are the `maxCarriers`
      largest and the `others` entry counts the rest, so the shown counts
      and the collapsed count add up to `total_flipped`. */
  lemma GainsAddUp(fs: seq<Flip>, maxCarriers: nat)
    ensures var sorted := SortedFlips(Summarize(Froms(fs)));
      |sorted| > maxCarriers ==>
        Total(sorted[..maxCarriers]) + Total(sorted[maxCarriers..]) == |fs| &&
        forall i, j :: 0 <= i < maxCarriers <= j < |sorted| ==> sorted[i].count >= sorted[j].count
  {
    var sorted := SortedFlips(Summarize(Froms(fs)));
    SortedFlipsTotal(fs);
    if |sorted| > maxCarriers {
      TotalAppend(sorted[..maxCarriers], sorted[maxCarriers..]);
      assert sorted[..maxCarriers] + sorted[maxCarriers..] == sorted;
      forall i, j | 0 <= i < maxCarriers <= j < |sorted|
        ensures sorted[i].count >= sorted[j].count
      {
        assert CountOf(sorted[i]) >= CountOf(sorted[j]);
      }
    }
  }

  // ---------------------------------------------------------------------
  // add_detailed_carrier_flips_column
  // ---------------------------------------------------------------------

  /** The origin map of a baseline is well formed. */
  lemma OriginOfWellFormed(columns: set<Column>, rows: seq<Shipment>)
    ensures Indexed(OriginOf(columns, rows)) && Keyed(OriginOf(columns, rows))
  {
    OriginOrder(RowContexts(columns, rows), IdLists(columns, rows));
  }

  /** The `Carrier Flips (Detailed)` text of each scenario row, given the
      baseline's columns and rows. */
  method AddDetailedCarrierFlipsColumn(columns: set<Column>, rows: seq<Shipment>,
                                       baseColumns: set<Column>, baseRows: seq<Shipment>, showIds: bool)
    returns (col: seq<string>)
    ensures |col| == |rows|
    ensures |baseRows| == 0 ==> forall k :: 0 <= k < |rows| ==> col[k] == "No baseline"
    ensures |baseRows| > 0 && IDS !in baseColumns ==> forall k :: 0 <= k < |rows| ==> col[k] == "No container tracking"
    ensures |baseRows| > 0 && IDS in baseColumns ==>
      var m := OriginOf(baseColumns, baseRows);
      var cols := TracerGroupColumns(columns);
      Indexed(m) &&
      forall k :: 0 <= k < |rows| ==>
        col[k] == FormatFlipDetails(TraceRow(m, StateOf(m, cols, m.order), columns, cols, rows[k]), showIds, 5)
  {
    if |baseRows| == 0 {
      col := seq(|rows|, k => "No baseline");
      return;
    }
    if IDS !in baseColumns {
      col := seq(|rows|, k => "No container tracking");
      return;
    }
    var m := BuildContainerOriginMap(baseColumns, baseRows);
    OriginOfWellFormed(baseColumns, baseRows);
    var results := TraceContainerMovements(columns, rows, m);
    col := seq(|results|, k requires 0 <= k < |results| => FormatFlipDetails(results[k], showIds, 5));
  }

  // ---------------------------------------------------------------------
  // get_container_movement_summary
  // ---------------------------------------------------------------------

  /** The flows out of one source carrier: destination and count, in
      insertion order. */
  datatype ToCount = ToCount(to: Option<string>, count: nat)
  datatype FromFlows = FromFlows(from: Option<string>, tos: seq<ToCount>)

  /** `flows[from][to] = flows[from].get(to, 0) + n` on the inner dictionary. */
  function AddTo(tos: seq<ToCount>, to: Option<string>, n: nat): seq<ToCount>
  {
    if |tos| == 0 then [ToCount(to, n)]
    else if tos[0].to == to then [ToCount(to, tos[0].count + n)] + tos[1..]
    else [tos[0]] + AddTo(tos[1..], to, n)
  }

  /** `flows[from][to] = flows[from].get(to, 0) + n`, adding `from` when new. */
  function AddFlow(fl: seq<FromFlows>, from: Option<string>, to: Option<string>, n: nat): seq<FromFlows>
  {
    if |fl| == 0 then [FromFlows(from, [ToCount(to, n)])]
    else if fl[0].from == from then [FromFlows(from, AddTo(fl[0].tos, to, n))] + fl[1..]
    else [fl[0]] + AddFlow(fl[1..], from, to, n)
  }

  /** The flows of one traced row: each of its sources into its carrier. */
  function AddSources(fl: seq<FromFlows>, sources: seq<Option<string>>, counts: map<Option<string>, nat>, to: Option<string>): seq<FromFlows>
  {
    if |sources| == 0 then fl
    else
      var c := sources[|sources| - 1];
      AddFlow(AddSources(fl, sources[..|sources| - 1], counts, to), c, to, if c in counts then counts[c] else 0)
  }

  /** The flow matrix after the rows `rs`, `tos` giving each row's carrier. */
  function FlowsOf(rs: seq<RowTrace>, tos: seq<Option<string>>): seq<FromFlows>
    requires |tos| == |rs|
  {
    if |rs| == 0 then []
    else
      var n := |rs| - 1;
      AddSources(FlowsOf(rs[..n], tos[..n]), rs[n].summary.sources, rs[n].summary.counts, tos[n])
  }

  /** The inner loop over one row's `flip_summary`. */
  method AddRowFlows(fl0: seq<FromFlows>, s: Summary, to: Option<string>) returns (fl: seq<FromFlows>)
    ensures fl == AddSources(fl0, s.sources, s.counts, to)
  {
    fl := fl0;
    var j := 0;
    while j < |s.sources|
      invariant 0 <= j <= |s.sources|
      invariant fl == AddSources(fl0, s.sources[..j], s.counts, to)
    {
      assert s.sources[..j + 1][..j] == s.sources[..j];
      var c := s.sources[j];
      fl := AddFlow(fl, c, to, if c in s.counts then s.counts[c] else 0);
      j := j + 1;
    }
    assert s.sources[..j] == s.sources;
  }

  /** The flow matrix. */
  method BuildFlows(rs: seq<RowTrace>, tos: seq<Option<string>>) returns (fl: seq<FromFlows>)
    requires |tos| == |rs|
    ensures fl == FlowsOf(rs, tos)
  {
    fl := [];
    var i := 0;
    while i < |rs|
      invariant 0 <= i <= |rs|
      invariant fl == FlowsOf(rs[..i], tos[..i])
    {
      assert rs[..i + 1][..i] == rs[..i];
      assert tos[..i + 1][..i] == tos[..i];
      fl := AddRowFlows(fl, rs[i].summary, tos[i]);
      i := i + 1;
    }
    assert rs[..i] == rs && tos[..i] == tos;
  }

  function ToTotal(tos: seq<ToCount>): nat
  {
    if |tos| == 0 then 0 else tos[0].count + ToTotal(tos[1..])
  }

  function FlowTotal(fl: seq<FromFlows>): nat
  {
    if |fl| == 0 then 0 else ToTotal(fl[0].tos) + FlowTotal(fl[1..])
  }

  lemma {:induction false} AddToTotal(tos: seq<ToCount>, to: Option<string>, n: nat)
    ensures ToTotal(AddTo(tos, to, n)) == ToTotal(tos) + n
  {
    if |tos| > 0 {
      if tos[0].to == to {
        assert ([ToCount(to, tos[0].count + n)] + tos[1..])[1..] == tos[1..];
      } else {
        AddToTotal(tos[1..], to, n);
        assert ([tos[0]] + AddTo(tos[1..], to, n))[1..] == AddTo(tos[1..], to, n);
      }
    }
  }

  /** Adding a flow of `n` raises the total by `n`. */
  lemma {:induction false} AddFlowTotal(fl: seq<FromFlows>, from: Option<string>, to: Option<string>, n: nat)
    ensures FlowTotal(AddFlow(fl, from, to, n)) == FlowTotal(fl) + n
  {
    if |fl| > 0 {
      if fl[0].from == from {
        AddToTotal(fl[0].tos, to, n);
        assert ([FromFlows(from, AddTo(fl[0].tos, to, n))] + fl[1..])[1..] == fl[1..];
      } else {
        AddFlowTotal(fl[1..], from, to, n);
        assert ([fl[0]] + AddFlow(fl[1..], from, to, n))[1..] == AddFlow(fl[1..], from, to, n);
      }
    } else {
      assert ToTotal([ToCount(to, n)]) == n + ToTotal([]);
    }
  }

  lemma {:induction false} AddSourcesTotal(fl: seq<FromFlows>, sources: seq<Option<string>>, counts: map<Option<string>, nat>, to: Option<string>)
    ensures FlowTotal(AddSources(fl, sources, counts, to)) == FlowTotal(fl) + SumOver(sources, counts)
  {
    if |sources| > 0 {
      var c := sources[|sources| - 1];
      AddSourcesTotal(fl, sources[..|sources| - 1], counts, to);
      AddFlowTotal(AddSources(fl, sources[..|sources| - 1], counts, to), c, to, if c in counts then counts[c] else 0);
    }
  }

  /** The flipped IDs of the rows, added up. */
  function FlippedTotal(rs: seq<RowTrace>): nat
  {
    if |rs| == 0 then 0 else FlippedTotal(rs[..|rs| - 1]) + |rs[|rs| - 1].trace.flipped|
  }

  /** Rows whose summaries are those of their flips. */
  predicate Summarized(rs: seq<RowTrace>)
  {
    forall k :: 0 <= k < |rs| ==> rs[k].summary == Summarize(Froms(rs[k].trace.flipped))
  }

  /** Every flipped container appears in exactly one flow: the flows add
      up to `total_flipped`. */
  lemma {:induction false} FlowsConserve(rs: seq<RowTrace>, tos: seq<Option<string>>)
    requires |tos| == |rs| && Summarized(rs)
    ensures FlowTotal(FlowsOf(rs, tos)) == FlippedTotal(rs)
  {
    if |rs| > 0 {
      var n := |rs| - 1;
      assert Summarized(rs[..n]);
      FlowsConserve(rs[..n], tos[..n]);
      AddSourcesTotal(FlowsOf(rs[..n], tos[..n]), rs[n].summary.sources, rs[n].summary.counts, tos[n]);
      SummaryTotal(Froms(rs[n].trace.flipped));
    }
  }

  /** One entry of `all_flows`. */
  datatype Flow = Flow(from: Option<string>, to: Option<string>, count: nat)

  function FlowCount(f: Flow): int
  {
    f.count
  }

  function ToFlows(from: Option<string>, tos: seq<ToCount>): (fs: seq<Flow>)
    ensures |fs| == |tos|
  {
    seq(|tos|, k requires 0 <= k < |tos| => Flow(from, tos[k].to, tos[k].count))
  }

  /** `all_flows`: the matrix flattened, sources in insertion order and
      each source's destinations in insertion order. */
  function AllFlows(fl: seq<FromFlows>): seq<Flow>
  {
    if |fl| == 0 then [] else ToFlows(fl[0].from, fl[0].tos) + AllFlows(fl[1..])
  }

  function SumFlows(fs: seq<Flow>): nat
  {
    if |fs| == 0 then 0 else fs[0].count + SumFlows(fs[1..])
  }

  lemma {:induction false} SumFlowsAppend(a: seq<Flow>, b: seq<Flow>)
    ensures SumFlows(a + b) == SumFlows(a) + SumFlows(b)
  {
    if |a| > 0 {
      assert (a + b)[1..] == a[1..] + b;
      SumFlowsAppend(a[1..], b);
    } else {
      assert a + b == b;
    }
  }

  lemma {:induction false} ToFlowsSum(from: Option<string>, tos: seq<ToCount>)
    ensures SumFlows(ToFlows(from, tos)) == ToTotal(tos)
  {
    if |tos| > 0 {
      ToFlowsSum(from, tos[1..]);
      assert ToFlows(from, tos)[1..] == ToFlows(from, tos[1..]);
    }
  }

  /** Flattening keeps the total. */
  lemma {:induction false} AllFlowsSum(fl: seq<FromFlows>)
    ensures SumFlows(AllFlows(fl)) == FlowTotal(fl)
  {
    if |fl| > 0 {
      AllFlowsSum(fl[1..]);
      ToFlowsSum(fl[0].from, fl[0].tos);
      SumFlowsAppend(ToFlows(fl[0].from, fl[0].tos), AllFlows(fl[1..]));
    }
  }

  lemma {:induction false} SumFlowsInsert(x: Flow, s: seq<Flow>)
    ensures SumFlows(InsertDesc(x, s, FlowCount)) == x.count + SumFlows(s)
  {
    if |s| > 0 && FlowCount(s[0]) >= FlowCount(x) {
      SumFlowsInsert(x, s[1..]);
    }
  }

  /** Sorting keeps the total. */
  lemma {:induction false} SumFlowsSorted(s: seq<Flow>)
    ensures SumFlows(SortDesc(s, FlowCount)) == SumFlows(s)
  {
    if |s| > 0 {
      var p := s[..|s| - 1];
      SumFlowsSorted(p);
      SumFlowsInsert(s[|s| - 1], SortDesc(p, FlowCount));
      SumFlowsAppend(p, [s[|s| - 1]]);
      assert p + [s[|s| - 1]] == s;
    }
  }

  /** The result of `get_container_movement_summary`. */
  datatype MovementSummary =
    | NoBaselineData
    | NoContainerTracking
    | Movements(totalContainers: nat, totalKept: nat, totalFlipped: nat, totalUnknown: nat,
                keptPercentage: real, flippedPercentage: real, topFlows: seq<Flow>,
                uniqueSources: nat, uniqueDestinations: nat)

  function KeptTotal(rs: seq<RowTrace>): nat
  {
    if |rs| == 0 then 0 else KeptTotal(rs[..|rs| - 1]) + |rs[|rs| - 1].trace.kept|
  }

  function UnknownTotal(rs: seq<RowTrace>): nat
  {
    if |rs| == 0 then 0 else UnknownTotal(rs[..|rs| - 1]) + |rs[|rs| - 1].trace.unknown|
  }

  function CurrentTotal(rs: seq<RowTrace>): nat
  {
    if |rs| == 0 then 0 else CurrentTotal(rs[..|rs| - 1]) + rs[|rs| - 1].currentCount
  }

  /** `part / total * 100`, or 0 without containers. */
  function Percentage(part: nat, total: nat): real
  {
    if total > 0 then part as real / total as real * 100.0 else 0.0
  }

  /** The statistics over the traced rows, `tos` giving each row's carrier. */
  function Stats(rs: seq<RowTrace>, tos: seq<Option<string>>): MovementSummary
    requires |tos| == |rs|
  {
    var kept := KeptTotal(rs);
    var flipped := FlippedTotal(rs);
    var unknown := UnknownTotal(rs);
    var total := kept + flipped + unknown;
    var fl := FlowsOf(rs, tos);
    var all := AllFlows(fl);
    Movements(total, kept, flipped, unknown, Percentage(kept, total), Percentage(flipped, total),
              PyTake(SortDesc(all, FlowCount), 10), |fl|, |set f | f in all :: f.to|)
  }

  /** The traces of the scenario rows. */
  function Traces(m: OriginMap, columns: set<Column>, rows: seq<Shipment>): (rs: seq<RowTrace>)
    requires Indexed(m)
    ensures |rs| == |rows|
  {
    var cols := TracerGroupColumns(columns);
    var st := StateOf(m, cols, m.order);
    seq(|rows|, k requires 0 <= k < |rows| => TraceRow(m, st, columns, cols, rows[k]))
  }

  /** Each scenario row's carrier cell. */
  function Carriers(columns: set<Column>, rows: seq<Shipment>): (tos: seq<Option<string>>)
    ensures |tos| == |rows|
  {
    seq(|rows|, k requires 0 <= k < |rows| => CarrierCell(columns, rows[k]))
  }

  /** `get_container_movement_summary`. */
  method GetContainerMovementSummary(columns: set<Column>, rows: seq<Shipment>,
                                     baseColumns: set<Column>, baseRows: seq<Shipment>)
    returns (r: MovementSummary)
    ensures |baseRows| == 0 ==> r == NoBaselineData
    ensures |baseRows| > 0 && IDS !in baseColumns ==> r == NoContainerTracking
    ensures |baseRows| > 0 && IDS in baseColumns ==>
      var m := OriginOf(baseColumns, baseRows);
      Indexed(m) && r == Stats(Traces(m, columns, rows), Carriers(columns, rows))
  {
    if |baseRows| == 0 {
      return NoBaselineData;
    }
    if IDS !in baseColumns {
      return NoContainerTracking;
    }
    var m := BuildContainerOriginMap(baseColumns, baseRows);
    OriginOfWellFormed(baseColumns, baseRows);
    var results := TraceContainerMovements(columns, rows, m);
    assert results == Traces(m, columns, rows);
    r := ComputeStats(results, Carriers(columns, rows));
  }

  /** The aggregation over the traced rows. */
  method ComputeStats(rs: seq<RowTrace>, tos: seq<Option<string>>) returns (r: MovementSummary)
    requires |tos| == |rs|
    ensures r == Stats(rs, tos)
  {
    var fl := BuildFlows(rs, tos);
    var all := AllFlows(fl);
    var kept := KeptTotal(rs);
    var flipped := FlippedTotal(rs);
    var unknown := UnknownTotal(rs);
    var total := kept + flipped + unknown;
    r := Movements(total, kept, flipped, unknown, Percentage(kept, total), Percentage(flipped, total),
                   PyTake(SortDesc(all, FlowCount), 10), |fl|, |set f | f in all :: f.to|);
  }

  /** The traces carry the summaries of their flips and split each row's
      IDs completely. */
  lemma TracesSummarized(m: OriginMap, columns: set<Column>, rows: seq<Shipment>)
    requires Indexed(m)
    ensures var rs := Traces(m, columns, rows);
      Summarized(rs) &&
      forall k :: 0 <= k < |rs| ==> |rs[k].trace.kept| + |rs[k].trace.flipped| + |rs[k].trace.unknown| == rs[k].currentCount
  {
    var rs := Traces(m, columns, rows);
    var cols := TracerGroupColumns(columns);
    forall k | 0 <= k < |rs|
      ensures |rs[k].trace.kept| + |rs[k].trace.flipped| + |rs[k].trace.unknown| == rs[k].currentCount
    {
      TraceRowLists(m, StateOf(m, cols, m.order), columns, cols, rows[k]);
    }
  }

  /** `total_containers` counts every ID of every scenario row. */
  lemma {:induction false} TotalsPartition(rs: seq<RowTrace>)
    requires forall k :: 0 <= k < |rs| ==> |rs[k].trace.kept| + |rs[k].trace.flipped| + |rs[k].trace.unknown| == rs[k].currentCount
    ensures KeptTotal(rs) + FlippedTotal(rs) + UnknownTotal(rs) == CurrentTotal(rs)
  {
    if |rs| > 0 {
      TotalsPartition(rs[..|rs| - 1]);
    }
  }

  /** The flows add up to `total_flipped`; the top flows are at most ten
      of them, largest first, and when there are at most ten flows they
      are all of them and add up to `total_flipped` too. */
  lemma StatsFlows(rs: seq<RowTrace>, tos: seq<Option<string>>)
    requires |tos| == |rs| && Summarized(rs)
    ensures var all := AllFlows(FlowsOf(rs, tos));
      var r := Stats(rs, tos);
      SumFlows(all) == r.totalFlipped &&
      |r.topFlows| <= 10 && NonIncreasingBy(r.topFlows, FlowCount) &&
      multiset(r.topFlows) <= multiset(all) &&
      (|all| <= 10 ==> SumFlows(r.topFlows) == r.totalFlipped)
  {
    var all := AllFlows(FlowsOf(rs, tos));
    var sorted := SortDesc(all, FlowCount);
    FlowsConserve(rs, tos);
    AllFlowsSum(FlowsOf(rs, tos));
    SumFlowsSorted(all);
    var top := PyTake(sorted, 10);
    assert top + PyDrop(sorted, 10) == sorted;
    assert multiset(top) <= multiset(sorted) by {
      assert multiset(sorted) == multiset(top) + multiset(PyDrop(sorted, 10));
    }
    forall i, j | 0 <= i < j < |top|
      ensures FlowCount(top[i]) >= FlowCount(top[j])
    {
      assert top[i] == sorted[i] && top[j] == sorted[j];
    }
  }

  /** The three shares of a positive total make 100. */
  lemma SharesAddUp(k: nat, f: nat, u: nat)
    requires k + f + u > 0
    ensures Percentage(k, k + f + u) + Percentage(f, k + f + u) + Percentage(u, k + f + u) == 100.0
  {
    var t := (k + f + u) as real;
    assert k as real / t + f as real / t + u as real / t == (k as real + f as real + u as real) / t;
    assert (k as real + f as real + u as real) / t == 1.0;
  }

  /** The kept and flipped percentages, with the unknown share, make 100
      when there are containers. */
  lemma StatsShares(rs: seq<RowTrace>, tos: seq<Option<string>>)
    requires |tos| == |rs|
    ensures var r := Stats(rs, tos);
      r.totalContainers > 0 ==>
        r.keptPercentage + r.flippedPercentage + Percentage(r.totalUnknown, r.totalContainers) == 100.0
  {
    var r := Stats(rs, tos);
    if r.totalContainers > 0 {
      SharesAddUp(r.totalKept, r.totalFlipped, r.totalUnknown);
    }
  }
}
