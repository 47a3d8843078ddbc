/** Constraint pre-allocation (components/constraints_processor.py): every
    operational constraint, taken in priority order, locks container IDs of
    the rows it matches to its target carrier before any scenario runs.
    The ID split/join and facility normalisation of that file are the
    shared helpers of `Utils`. */
module ConstraintsProcessor {
  import opened Wrappers
  import opened Seqs
  import opened Text
  import opened Frame
  import opened Utils
  import opened PyMath

  // ---------------------------------------------------------------------
  // `clean_percent`
  // ---------------------------------------------------------------------

  /** A cell of an uploaded constraints sheet as Excel delivers it: empty
      (NaN), a number or text. */
  datatype SheetCell = NoValue | Number(x: real) | Chars(s: string)

  /** A number in (0, 1] is a fraction and becomes a percentage. */
  function AsPercentage(x: real): (p: real)
    ensures 0.0 < x <= 1.0 ==> 0.0 < p <= 100.0
  {
    if 0.0 < x <= 1.0 then x * 100.0 else x
  }

  /** `clean_percent`: NaN and "" give None, numbers go through the
      fraction rule, strings lose their '%' signs first and become None
      when they do not parse. */
  function CleanPercent(v: SheetCell): (r: Option<real>)
    ensures v.NoValue? || v == Chars("") ==> r.None?
    ensures v.Number? ==> r.Some? && r.value == (if 0.0 < v.x <= 1.0 then 100.0 * v.x else v.x)
    ensures v.Chars? && r.Some? ==> ParseReal(Remove(Strip(v.s), '%')).Some?
  {
    match v
    case NoValue => None
    case Number(x) => Some(AsPercentage(x))
    case Chars(s) =>
      if s == "" then None
      else
        match ParseReal(Remove(Strip(s), '%'))
        case None => None
        case Some(x) => Some(AsPercentage(x))
  }

  /** A fraction and the same share written as a percentage agree; values
      outside (0, 1] are taken as percentages already. */
  lemma FractionOrPercent(x: real)
    ensures 0.0 < x <= 1.0 ==> CleanPercent(Number(x)) == Some(100.0 * x)
    ensures !(0.0 < x <= 1.0) ==> CleanPercent(Number(x)) == Some(x)
  {
  }

  lemma {:induction false} RemoveAppend(a: string, b: string, c: char)
    ensures Remove(a + b, c) == Remove(a, c) + Remove(b, c)
  {
    if |a| > 0 {
      assert (a + b)[1..] == a[1..] + b;
      RemoveAppend(a[1..], b, c);
    } else {
      assert a + b == b;
    }
  }

  lemma {:induction false} RemoveAbsent(s: string, c: char)
    requires c !in s
    ensures Remove(s, c) == s
  {
    if |s| > 0 {
      RemoveAbsent(s[1..], c);
      assert [s[0]] + s[1..] == s;
    }
  }

  /** "n%" and "n" as text read like the number n: the text path and the
      number path of `clean_percent` agree on whole numbers. */
  lemma TextAgreesWithNumber(n: int)
    ensures CleanPercent(Chars(IntToString(n) + "%")) == CleanPercent(Number(n as real))
    ensures CleanPercent(Chars(IntToString(n))) == CleanPercent(Number(n as real))
  {
    var d := IntToString(n);
    var s := d + "%";
    assert '%' !in d by {
      if n < 0 {
        assert d == "-" + NatToString(-n);
        assert forall k :: 0 <= k < |d| ==> d[k] == '-' || IsDigit(d[k]);
      } else {
        assert forall k :: 0 <= k < |d| ==> IsDigit(d[k]);
      }
    }
    assert IsStripped(s) && IsStripped(d);
    StripOfStripped(s);
    StripOfStripped(d);
    RemoveAppend(d, "%", '%');
    RemoveAbsent(d, '%');
    assert Remove("%", '%') == "";
    assert Remove(s, '%') == d;
    ParseRealOfString(n);
  }

  /** A text cell whose text, stripped and without its '%' signs, parses as
      the number x reads like the cell holding x. */
  lemma TextAgreesWithParsed(s: string, x: real)
    requires s != "" && ParseReal(Remove(Strip(s), '%')) == Some(x)
    ensures CleanPercent(Chars(s)) == CleanPercent(Number(x))
  {
  }

  /** A blank text cell is not a percentage. */
  lemma BlankIsNoPercent(s: string)
    requires forall k :: 0 <= k < |s| ==> IsSpace(s[k])
    ensures CleanPercent(Chars(s)) == None
  {
    if s != "" {
      StripAllSpace(s);
      assert Remove("", '%') == "";
    }
  }

  // ---------------------------------------------------------------------
  // Constraints and the target rule
  // ---------------------------------------------------------------------

  /** One validated constraint row: the filters, the target carrier, the
      three amounts and the excluded facility. NaN cells are `None`. */
  datatype Constraint = Constraint(
    priority: real,
    category: Option<string>,
    carrier: Option<string>,
    lane: Option<string>,
    port: Option<string>,
    week: Option<real>,
    terminal: Option<string>,
    maximum: Option<real>,
    minimum: Option<real>,
    percent: Option<real>,
    excluded: Option<string>)

  /** `is_valid_value`: neither NaN nor a blank string. */
  predicate Valid(v: Option<string>)
  {
    v.Some? && Strip(v.value) != ""
  }

  /** `pd.notna(v) and v > 0`. */
  predicate Positive(v: Option<real>)
  {
    v.Some? && v.value > 0.0
  }

  /** A Maximum constraint with a carrier: a hard cap. */
  predicate IsCap(c: Constraint)
  {
    Positive(c.maximum) && Valid(c.carrier)
  }

  /** Python's `math.ceil`. */
  function Ceil(x: real): (n: int)
    ensures n as real >= x && (n - 1) as real < x
  {
    if x.Floor as real == x then x.Floor else x.Floor + 1
  }

  /** Which amount decided the target. */
  datatype Basis = MaxCount | MinCount | PercentShare

  /** The outcome of the Max > Min > Percent rule. */
  datatype Plan = MaxNeedsCarrier | NoAmount | Allocate(target: nat, basis: Basis)

  /** The target of the percent rule: the product rounded up, at least one
      when the product lies in (0, 1), never more than what is eligible. */
  function PercentTarget(total: nat, pct: real): (t: nat)
    ensures t <= total
  {
    var share := total as real * (pct / 100.0);
    var up := if 0.0 < share < 1.0 then 1 else Ceil(share);
    if up < 0 then 0 else if up < total then up else total
  }

  /** The target rule of `apply_constraints_to_data`: Maximum before
      Minimum before Percent, each applied only when positive. */
  function TargetRule(c: Constraint, hasCarrier: bool, total: nat): (p: Plan)
    ensures p.Allocate? ==> p.target <= total
  {
    if Positive(c.maximum) then
      if !hasCarrier then MaxNeedsCarrier
      else
        var m := Trunc(c.maximum.value);
        Allocate(if total > 0 then (if m < total then m else total) else 0, MaxCount)
    else if Positive(c.minimum) then
      var m := Trunc(c.minimum.value);
      Allocate(if m < total then m else total, MinCount)
    else if Positive(c.percent) then
      Allocate(PercentTarget(total, c.percent.value), PercentShare)
    else NoAmount
  }

  /** The amounts are tried in the order Maximum, Minimum, Percent; the
      first positive one decides, and only Maximum needs a carrier. */
  lemma TargetPriority(c: Constraint, hasCarrier: bool, total: nat)
    ensures TargetRule(c, hasCarrier, total) == MaxNeedsCarrier <==> Positive(c.maximum) && !hasCarrier
    ensures TargetRule(c, hasCarrier, total) == NoAmount <==>
              !Positive(c.maximum) && !Positive(c.minimum) && !Positive(c.percent)
    ensures Positive(c.maximum) && hasCarrier ==> TargetRule(c, hasCarrier, total).Allocate? && TargetRule(c, hasCarrier, total).basis == MaxCount
    ensures !Positive(c.maximum) && Positive(c.minimum) ==> TargetRule(c, hasCarrier, total).Allocate? && TargetRule(c, hasCarrier, total).basis == MinCount
    ensures !Positive(c.maximum) && !Positive(c.minimum) && Positive(c.percent) ==>
              TargetRule(c, hasCarrier, total).Allocate? && TargetRule(c, hasCarrier, total).basis == PercentShare
  {
  }

  /** A Maximum or Minimum target is the whole part of the amount, capped
      at what is eligible. */
  lemma CountTarget(c: Constraint, hasCarrier: bool, total: nat)
    requires TargetRule(c, hasCarrier, total).Allocate?
    requires TargetRule(c, hasCarrier, total).basis != PercentShare
    ensures var t := TargetRule(c, hasCarrier, total).target;
            var v := if Positive(c.maximum) then c.maximum.value else c.minimum.value;
            t <= total && t as real <= v && (t == total || v < (t + 1) as real)
  {
  }

  /** A Percent target is the least whole number of containers covering the
      share, or everything eligible when that is less. */
  lemma PercentCeiling(total: nat, pct: real)
    requires pct > 0.0
    ensures var t := PercentTarget(total, pct);
            var share := total as real * pct / 100.0;
            t <= total &&
            (t == total || (t as real >= share && (t - 1) as real < share))
  {
    var share := total as real * (pct / 100.0);
    assert share == total as real * pct / 100.0;
    assert share >= 0.0;
  }

  /** Some eligible container and a positive share always give a positive
      target. */
  lemma PercentAtLeastOne(total: nat, pct: real)
    requires pct > 0.0 && total > 0
    ensures PercentTarget(total, pct) >= 1
  {
    var share := total as real * (pct / 100.0);
    assert share > 0.0;
  }

  // ---------------------------------------------------------------------
  // Eligible rows
  // ---------------------------------------------------------------------

  /** `split_container_numbers(row.get('Container Numbers', ''))`. */
  function RowIds(cols: set<Column>, r: Shipment): (ids: seq<string>)
    ensures forall k :: 0 <= k < |ids| ==> WellFormedId(ids[k])
    ensures IDS !in cols ==> ids == []
  {
    ParseContainerIds(if IDS in cols then r.ids else None)
  }

  /** The IDs no constraint has locked yet, in order. */
  function Untracked(ids: seq<string>, tracked: set<string>): (r: seq<string>)
    ensures forall x :: x in r <==> x in ids && x !in tracked
    ensures |r| <= |ids|
  {
    Filter(ids, (x: string) => x !in tracked)
  }

  /** The constraint's filters: each filter that is given, and whose column
      the table has where the source checks for it, must match exactly. */
  predicate Matches(cols: set<Column>, c: Constraint, r: Shipment)
  {
    (Valid(c.category) && CATEGORY in cols ==> r.category == c.category) &&
    (Valid(c.lane) ==> r.lane == c.lane) &&
    (Valid(c.port) && PORT in cols ==> r.port == c.port) &&
    (c.week.Some? ==> r.week.Some? && r.week.value as real == c.week.value) &&
    (Valid(c.terminal) && TERMINAL in cols ==> r.terminal == c.terminal)
  }

  /** The first column a given filter indexes although the table lacks it:
      the Lane and Week Number filters, unlike the others, do not check. */
  function MissingFilterColumn(cols: set<Column>, c: Constraint): Option<Column>
  {
    if Valid(c.lane) && LANE !in cols then Some(LANE)
    else if c.week.Some? && WEEK !in cols then Some(WEEK)
    else None
  }

  /** The normalised facilities the constraint's carrier may not receive:
      its own Excluded FC and that of every constraint for the same carrier. */
  function ExcludedCodes(c: Constraint, cs: seq<Constraint>): (codes: set<string>)
  {
    (if Valid(c.excluded) then {NormalizeFacilityCode(c.excluded)} else {}) +
    (if Valid(c.carrier) then
       set k | 0 <= k < |cs| && cs[k].carrier == c.carrier && Valid(cs[k].excluded)
         :: NormalizeFacilityCode(Some(Strip(cs[k].excluded.value)))
     else {})
  }

  /** The row sits at an excluded facility. */
  predicate Barred(cols: set<Column>, codes: set<string>, r: Shipment)
  {
    FACILITY in cols && NormalizeFacilityCode(r.facility) in codes
  }

  predicate EligibleRow(cols: set<Column>, c: Constraint, codes: set<string>, tracked: set<string>, r: Shipment)
  {
    Matches(cols, c, r) && !Barred(cols, codes, r) && |Untracked(RowIds(cols, r), tracked)| > 0
  }

  /** The positions of the rows the constraint may draw from: matching,
      not at an excluded facility, with an ID still unlocked. */
  function Eligible(cols: set<Column>, rows: seq<Shipment>, c: Constraint, codes: set<string>, tracked: set<string>): (e: seq<nat>)
    ensures NoDup(e)
    ensures forall k :: 0 <= k < |e| ==> e[k] < |rows|
    ensures forall j: nat :: j in e <==> j < |rows| && EligibleRow(cols, c, codes, tracked, rows[j])
  {
    Positions(|rows|, EligibleTest(cols, rows, c, codes, tracked))
  }

  function EligibleTest(cols: set<Column>, rows: seq<Shipment>, c: Constraint, codes: set<string>, tracked: set<string>): (nat -> bool)
  {
    (j: nat) => j < |rows| && EligibleRow(cols, c, codes, tracked, rows[j])
  }

  /** Stripping does not change a facility's normalised code. */
  lemma NormalizeStripped(s: string)
    ensures NormalizeFacilityCode(Some(Strip(s))) == NormalizeFacilityCode(Some(s))
  {
    StripChars(s);
    StripOfStripped(Strip(s));
  }

  /** No eligible row sits at a facility that any constraint for the same
      carrier excludes. */
  lemma EligibleAvoidsExcluded(cols: set<Column>, rows: seq<Shipment>, c: Constraint, cs: seq<Constraint>,
                               tracked: set<string>, j: nat, k: nat)
    requires j in Eligible(cols, rows, c, ExcludedCodes(c, cs), tracked)
    requires FACILITY in cols && Valid(c.carrier)
    requires k < |cs| && cs[k].carrier == c.carrier && Valid(cs[k].excluded)
    ensures NormalizeFacilityCode(rows[j].facility) != NormalizeFacilityCode(cs[k].excluded)
  {
    NormalizeStripped(cs[k].excluded.value);
    assert NormalizeFacilityCode(Some(Strip(cs[k].excluded.value))) in ExcludedCodes(c, cs);
  }

  /** Unlocked IDs over the given rows: `_available_containers.sum()`. */
  function AvailableTotal(cols: set<Column>, rows: seq<Shipment>, e: seq<nat>, tracked: set<string>): nat
    requires forall k :: 0 <= k < |e| ==> e[k] < |rows|
  {
    if |e| == 0 then 0
    else AvailableTotal(cols, rows, e[..|e| - 1], tracked) + |Untracked(RowIds(cols, rows[e[|e| - 1]]), tracked)|
  }

  /** Some eligible row means some container to allocate. */
  lemma {:induction false} AvailablePositive(cols: set<Column>, rows: seq<Shipment>, c: Constraint, codes: set<string>,
                                             tracked: set<string>, e: seq<nat>)
    requires forall k :: 0 <= k < |e| ==> e[k] < |rows| && EligibleRow(cols, c, codes, tracked, rows[e[k]])
    ensures (AvailableTotal(cols, rows, e, tracked) > 0) == (|e| > 0)
  {
    if |e| > 0 {
      AvailablePositive(cols, rows, c, codes, tracked, e[..|e| - 1]);
    }
  }

  /** `sort_values('Week Number')`: ascending week, NaN weeks last, equal
      weeks in table order. */
  function WeekAt(rows: seq<Shipment>, i: nat): Option<int>
  {
    if i < |rows| then rows[i].week else None
  }

  predicate WeekBefore(a: Option<int>, b: Option<int>)
  {
    a.Some? && (b.None? || a.value < b.value)
  }

  function ByWeek(rows: seq<Shipment>): (nat, nat) -> bool
  {
    (i: nat, j: nat) => WeekBefore(WeekAt(rows, i), WeekAt(rows, j)) || (WeekAt(rows, i) == WeekAt(rows, j) && i < j)
  }

  lemma ByWeekIsOrder(rows: seq<Shipment>)
    ensures StrictOrderBelow(ByWeek(rows), |rows|)
  {
  }

  // ---------------------------------------------------------------------
  // The allocation tracker and `allocate_specific_containers`
  // ---------------------------------------------------------------------

  /** What the tracker records for a locked ID. */
  datatype Claim = Claim(carrier: Option<string>, week: Option<int>, row: nat)

  /** The split `allocate_specific_containers` makes of a row's IDs: the
      unlocked IDs, the first `min(n, available)` of them allocated and the
      rest remaining. */
  function Claimable(ids: seq<string>, n: int, tracked: set<string>): (p: (seq<string>, seq<string>))
    ensures p.0 + p.1 == Untracked(ids, tracked)
    ensures n >= 0 ==> |p.0| == if n < |Untracked(ids, tracked)| then n else |Untracked(ids, tracked)|
    ensures forall x :: x in p.0 || x in p.1 ==> x in ids && x !in tracked
  {
    var available := Untracked(ids, tracked);
    if |available| == 0 then ([], [])
    else
      var m := if n < |available| then n else |available|;
      (PyTake(available, m), PyDrop(available, m))
  }

  /** `allocated_containers_tracker`: container ID -> claim. */
  class Tracker {
    var claims: map<string, Claim>

    constructor()
      ensures claims == map[]
    {
      claims := map[];
    }

    /** `allocate_specific_containers`: allocates up to `n` of the row's
        unlocked IDs and records each in the tracker. */
    method AllocateSpecificContainers(cols: set<Column>, r: Shipment, row: nat, n: int, carrier: Option<string>)
      returns (taken: seq<string>, left: seq<string>)
      modifies this
      ensures (taken, left) == Claimable(RowIds(cols, r), n, old(claims).Keys)
      ensures claims == Recorded(old(claims), taken, Claim(carrier, r.week, row))
    {
      var split := Claimable(RowIds(cols, r), n, claims.Keys);
      taken, left := split.0, split.1;
      Record(taken, Claim(carrier, r.week, row));
    }

    /** The loop that marks each allocated ID in the tracker. */
    method Record(xs: seq<string>, claim: Claim)
      modifies this
      ensures claims == Recorded(old(claims), xs, claim)
    {
      var i := 0;
      while i < |xs|
        invariant 0 <= i <= |xs|
        invariant claims == Recorded(old(claims), xs[..i], claim)
      {
        assert xs[..i + 1][..i] == xs[..i];
        claims := claims[xs[i] := claim];
        i := i + 1;
      }
      assert xs[..i] == xs;
    }
  }

  /** The tracker after recording each of `xs` with the same claim. */
  function Recorded(claims: map<string, Claim>, xs: seq<string>, claim: Claim): (m: map<string, Claim>)
    ensures m.Keys == claims.Keys + set x | x in xs
    ensures forall x :: x in m ==> m[x] == if x in xs then claim else claims[x]
  {
    if |xs| == 0 then claims
    else Recorded(claims, xs[..|xs| - 1], claim)[xs[|xs| - 1] := claim]
  }

  // ---------------------------------------------------------------------
  // The greedy row loop
  // ---------------------------------------------------------------------

  /** A constrained record: the row copy holding the locked IDs, with the
      constraint's priority. */
  datatype Locked = Locked(row: Shipment, priority: real)

  /** The constrained record for the IDs `taken` from row `r`: its IDs and
      count replaced, and both carrier columns set to the target carrier
      when there is one. */
  function Assigned(cols: set<Column>, r: Shipment, taken: seq<string>, carrier: Option<string>): (a: Shipment)
  {
    r.(ids := Some(JoinContainerIds(taken)), count := |taken|,
       carrier := if carrier.Some? && CARRIER in cols then carrier else r.carrier,
       carrierAlt := if carrier.Some? && CARRIER_ALT in cols then carrier else r.carrierAlt)
  }

  /** The row left behind: its remaining IDs, or count 0 and no IDs when
      all were taken. */
  function Rest(r: Shipment, left: seq<string>): (a: Shipment)
  {
    if |left| > 0 then r.(ids := Some(JoinContainerIds(left)), count := |left|)
    else r.(count := 0, ids := Some(""))
  }

  /** `b` is row `a` with only its IDs and count rewritten: the count is the
      number of IDs left, each of them one of `a`'s. */
  predicate Rewritten(a: Shipment, b: Shipment)
  {
    b.(ids := a.ids, count := a.count) == a &&
    b.count == |ParseContainerIds(b.ids)| &&
    forall x :: x in ParseContainerIds(b.ids) ==> x in ParseContainerIds(a.ids)
  }

  function IdSet(v: Option<string>): set<string>
  {
    set x | x in ParseContainerIds(v)
  }

  /** A record this constraint made: its count is the number of its IDs,
      at least one, and it carries the target carrier and priority. */
  predicate Locks(cols: set<Column>, l: Locked, carrier: Option<string>, priority: real)
  {
    l.priority == priority &&
    0 < l.row.count == |ParseContainerIds(l.row.ids)| &&
    (carrier.Some? && CARRIER in cols ==> l.row.carrier == carrier) &&
    (carrier.Some? && CARRIER_ALT in cols ==> l.row.carrierAlt == carrier)
  }

  /** The two records share no container ID. */
  predicate Apart(a: Locked, b: Locked)
  {
    IdSet(a.row.ids) !! IdSet(b.row.ids)
  }

  /** No container ID is held by two records. */
  predicate Disjoint(ls: seq<Locked>)
  {
    forall i, j :: 0 <= i < j < |ls| ==> Apart(ls[i], ls[j])
  }

  function LockedCount(ls: seq<Locked>): int
  {
    if |ls| == 0 then 0 else LockedCount(ls[..|ls| - 1]) + ls[|ls| - 1].row.count
  }

  /** A record holds exactly the IDs taken for it. */
  lemma AssignedHolds(cols: set<Column>, r: Shipment, taken: seq<string>, carrier: Option<string>, priority: real)
    requires |taken| > 0 && forall k :: 0 <= k < |taken| ==> WellFormedId(taken[k])
    ensures ParseContainerIds(Assigned(cols, r, taken, carrier).ids) == taken
    ensures Locks(cols, Locked(Assigned(cols, r, taken, carrier), priority), carrier, priority)
  {
    ParseJoin(taken);
  }

  /** A row left behind holds exactly the IDs left in it. */
  lemma RestRewritten(r: Shipment, left: seq<string>)
    requires forall k :: 0 <= k < |left| ==> WellFormedId(left[k]) && left[k] in ParseContainerIds(r.ids)
    ensures Rewritten(r, Rest(r, left))
    ensures ParseContainerIds(Rest(r, left).ids) == left
  {
    if |left| > 0 {
      ParseJoin(left);
    } else {
      ParseBlank("");
    }
  }

  /** Elements of a list of well-formed IDs are well-formed. */
  lemma WellFormedPart(part: seq<string>, ids: seq<string>)
    requires forall k :: 0 <= k < |ids| ==> WellFormedId(ids[k])
    requires forall x :: x in part ==> x in ids
    ensures forall k :: 0 <= k < |part| ==> WellFormedId(part[k]) && part[k] in ids
  {
    forall k | 0 <= k < |part| ensures WellFormedId(part[k]) {
      assert part[k] in part;
      var i :| 0 <= i < |ids| && ids[i] == part[k];
    }
  }

  /** One allocation from one row: the record holds exactly the IDs taken,
      the row keeps exactly the IDs left. */
  lemma OneRow(cols: set<Column>, r: Shipment, n: int, tracked: set<string>, carrier: Option<string>, priority: real)
    requires |Claimable(RowIds(cols, r), n, tracked).0| > 0
    ensures var p := Claimable(RowIds(cols, r), n, tracked);
            var a := Assigned(cols, r, p.0, carrier);
            ParseContainerIds(a.ids) == p.0 &&
            Locks(cols, Locked(a, priority), carrier, priority) &&
            Rewritten(r, Rest(r, p.1))
  {
    var ids := RowIds(cols, r);
    var p := Claimable(ids, n, tracked);
    WellFormedPart(p.0, ids);
    WellFormedPart(p.1, ids);
    assert IDS in cols && ids == ParseContainerIds(r.ids);
    AssignedHolds(cols, r, p.0, carrier, priority);
    RestRewritten(r, p.1);
  }

  /** Rows are only rewritten where the loop visited them. */
  ghost predicate RowsKept(rows: seq<Shipment>, order: seq<nat>, after: seq<Shipment>)
  {
    |after| == |rows| &&
    forall j :: 0 <= j < |rows| ==> after[j] == rows[j] || (j in order && Rewritten(rows[j], after[j]))
  }

  /** The records of one constraint, their IDs tracked between `before`
      and `now` and pairwise disjoint. */
  ghost predicate RecordsOk(cols: set<Column>, carrier: Option<string>, priority: real,
                            taken: seq<Locked>, before: set<string>, now: set<string>)
  {
    (forall m :: 0 <= m < |taken| ==> Locks(cols, taken[m], carrier, priority) && IdSet(taken[m].row.ids) <= now - before) &&
    Disjoint(taken) &&
    before <= now
  }

  /** What the greedy loop keeps true: rows only rewritten where visited,
      records of this constraint, their IDs newly tracked and pairwise
      disjoint, and never more than the target. */
  ghost predicate Progress(cols: set<Column>, rows: seq<Shipment>, order: seq<nat>, target: nat,
                           carrier: Option<string>, priority: real,
                           after: seq<Shipment>, taken: seq<Locked>, count: nat,
                           before: set<string>, now: set<string>)
  {
    RowsKept(rows, order, after) &&
    count <= target &&
    count == LockedCount(taken) &&
    RecordsOk(cols, carrier, priority, taken, before, now)
  }

  /** Adding a record whose IDs were tracked only now keeps the records
      disjoint and newly tracked. */
  lemma {:induction false} RecordsSnoc(cols: set<Column>, taken: seq<Locked>, l: Locked, carrier: Option<string>, priority: real,
                                       before: set<string>, tracked: set<string>, now: set<string>)
    requires tracked <= now
    requires RecordsOk(cols, carrier, priority, taken, before, tracked)
    requires Locks(cols, l, carrier, priority) && IdSet(l.row.ids) <= now - tracked
    ensures RecordsOk(cols, carrier, priority, taken + [l], before, now)
    ensures LockedCount(taken + [l]) == LockedCount(taken) + l.row.count
  {
    var t := taken + [l];
    assert t[..|taken|] == taken;
    assert Disjoint(t) by {
      forall i, j | 0 <= i < j < |t| ensures Apart(t[i], t[j]) {
        if j == |taken| {
          assert IdSet(t[i].row.ids) <= tracked;
        }
      }
    }
  }

  /** Rewriting a visited row keeps every row as it was or rewritten. */
  lemma RowsUpdate(rows: seq<Shipment>, order: seq<nat>, after: seq<Shipment>, j: nat, b: Shipment)
    requires j < |rows| && j in order && Rewritten(rows[j], b)
    requires RowsKept(rows, order, after)
    ensures RowsKept(rows, order, after[j := b])
  {
  }

  /** One turn of the greedy loop keeps its invariant. */
  lemma ProgressStep(cols: set<Column>, rows: seq<Shipment>, order: seq<nat>, target: nat,
                     carrier: Option<string>, priority: real,
                     after: seq<Shipment>, taken: seq<Locked>, count: nat,
                     before: set<string>, tracked: set<string>, j: nat,
                     got: seq<string>, left: seq<string>, now: set<string>)
    requires Progress(cols, rows, order, target, carrier, priority, after, taken, count, before, tracked)
    requires j < |rows| && j in order && count < target
    requires (got, left) == Claimable(RowIds(cols, rows[j]), target - count, tracked)
    requires |got| > 0 && now == tracked + set x | x in got
    ensures Progress(cols, rows, order, target, carrier, priority,
                     after[j := Rest(rows[j], left)], taken + [Locked(Assigned(cols, rows[j], got, carrier), priority)],
                     count + |got|, before, now)
  {
    var r := rows[j];
    var p := Claimable(RowIds(cols, r), target - count, tracked);
    OneRow(cols, r, target - count, tracked, carrier, priority);
    var l := Locked(Assigned(cols, r, p.0, carrier), priority);
    assert IdSet(l.row.ids) <= now - tracked;
    RecordsSnoc(cols, taken, l, carrier, priority, before, tracked, now);
    RowsUpdate(rows, order, after, j, Rest(r, p.1));
  }

  // ---------------------------------------------------------------------
  // The container balance
  // ---------------------------------------------------------------------

  function RowIdSet(cols: set<Column>, r: Shipment): set<string>
  {
    set x | x in RowIds(cols, r)
  }

  /** A row that lists each of its IDs once, none of them locked, and,
      when it lists any, exactly as many as its count. */
  ghost predicate Consistent(cols: set<Column>, r: Shipment, tracked: set<string>)
  {
    0 <= r.count && NoDup(RowIds(cols, r)) &&
    (|RowIds(cols, r)| > 0 ==> r.count == |RowIds(cols, r)|) &&
    RowIdSet(cols, r) !! tracked
  }

  /** Every row consistent, and the rows separate. */
  ghost predicate Clean(cols: set<Column>, rows: seq<Shipment>, tracked: set<string>)
  {
    (forall j :: 0 <= j < |rows| ==> Consistent(cols, rows[j], tracked)) && Separate(cols, rows)
  }

  /** No ID listed by two rows. */
  ghost predicate Separate(cols: set<Column>, rows: seq<Shipment>)
  {
    forall i, j :: 0 <= i < j < |rows| ==> RowIdSet(cols, rows[i]) !! RowIdSet(cols, rows[j])
  }

  /** The table lists every container once: no ID in two rows or twice in
      a row, no negative count, and a row that lists IDs lists exactly its
      count of them. */
  ghost predicate ListsEachOnce(t: Table)
  {
    Clean(t.columns, t.rows, {})
  }

  /** The containers accounted for: those locked in records plus those the
      rows still hold. */
  function Accounted(locked: seq<Locked>, rows: seq<Shipment>): int
  {
    LockedCount(locked) + SumCounts(rows)
  }

  /** The balance of the greedy loop after `k` turns: the rows are clean
      for the IDs locked so far, the rows not yet visited are as they were,
      and what the records took is what the rows lost. */
  ghost predicate Settled(cols: set<Column>, rows: seq<Shipment>, order: seq<nat>, k: nat,
                          after: seq<Shipment>, count: nat, now: set<string>)
    requires k <= |order|
  {
    |after| == |rows| && Clean(cols, after, now) &&
    (forall j :: 0 <= j < |rows| && j !in order[..k] ==> after[j] == rows[j]) &&
    SumCounts(after) + count == SumCounts(rows)
  }

  lemma {:induction false} SumCountsUpdate(rows: seq<Shipment>, j: nat, b: Shipment)
    requires j < |rows|
    ensures SumCounts(rows[j := b]) == SumCounts(rows) - rows[j].count + b.count
    decreases |rows|
  {
    var n := |rows| - 1;
    if j < n {
      assert rows[j := b][..n] == rows[..n][j := b];
      SumCountsUpdate(rows[..n], j, b);
    } else {
      assert rows[j := b][..n] == rows[..n];
    }
  }

  /** Filtering out nothing that is locked keeps every ID. */
  lemma UntrackedFree(ids: seq<string>, tracked: set<string>)
    requires forall x :: x in ids ==> x !in tracked
    ensures Untracked(ids, tracked) == ids
  {
    FilterKeepsAll(ids, (x: string) => x !in tracked);
  }

  /** A suffix of a list without repeats has none, and shares nothing with
      the prefix. */
  lemma SplitApart(got: seq<string>, left: seq<string>)
    requires NoDup(got + left)
    ensures NoDup(left)
    ensures (set x | x in got) !! (set x | x in left)
  {
    var w := got + left;
    forall i, j | 0 <= i < j < |left| ensures left[i] != left[j] {
      assert w[|got| + i] == left[i] && w[|got| + j] == left[j];
    }
    forall i, j | 0 <= i < |got| && 0 <= j < |left| ensures got[i] != left[j] {
      assert w[i] == got[i] && w[|got| + j] == left[j];
    }
  }

  /** The row a visit leaves behind is consistent for the IDs locked now. */
  lemma RestConsistent(cols: set<Column>, r: Shipment, tracked: set<string>, n: int,
                       got: seq<string>, left: seq<string>, now: set<string>)
    requires Consistent(cols, r, tracked)
    requires (got, left) == Claimable(RowIds(cols, r), n, tracked)
    requires |got| > 0 && now == tracked + set x | x in got
    ensures RowIds(cols, r) == got + left
    ensures r.count == |got| + |left| && Rest(r, left).count == |left|
    ensures RowIdSet(cols, Rest(r, left)) <= RowIdSet(cols, r)
    ensures Consistent(cols, Rest(r, left), now)
  {
    var ids := RowIds(cols, r);
    UntrackedFree(ids, tracked);
    assert IDS in cols && ids == ParseContainerIds(r.ids);
    WellFormedPart(left, ids);
    RestRewritten(r, left);
    SplitApart(got, left);
    assert RowIds(cols, Rest(r, left)) == left;
  }

  /** One visit that takes IDs keeps the balance. */
  lemma BalanceStep(cols: set<Column>, rows: seq<Shipment>, order: seq<nat>, k: nat,
                    after: seq<Shipment>, count: nat, tracked: set<string>, n: int,
                    got: seq<string>, left: seq<string>, now: set<string>)
    requires NoDup(order) && k < |order| && order[k] < |rows|
    requires Settled(cols, rows, order, k, after, count, tracked)
    requires (got, left) == Claimable(RowIds(cols, rows[order[k]]), n, tracked)
    requires |got| > 0 && now == tracked + set x | x in got
    ensures Settled(cols, rows, order, k + 1, after[order[k] := Rest(rows[order[k]], left)], count + |got|, now)
  {
    var j := order[k];
    var r := rows[j];
    assert after[j] == r by {
      forall i | 0 <= i < k ensures order[..k][i] != j {
      }
    }
    var b := Rest(r, left);
    assert Clean(cols, after[j := b], now) by {
      RestConsistent(cols, r, tracked, n, got, left, now);
      CleanUpdate(cols, after, j, b, tracked, now);
    }
    assert SumCounts(after[j := b]) + count + |got| == SumCounts(rows) by {
      RestConsistent(cols, r, tracked, n, got, left, now);
      SumCountsUpdate(after, j, b);
    }
    UnvisitedKept(rows, order, k, after, b);
  }

  /** Rewriting the row a visit reached leaves every row not yet visited as
      it was. */
  lemma UnvisitedKept(rows: seq<Shipment>, order: seq<nat>, k: nat, after: seq<Shipment>, b: Shipment)
    requires k < |order| && order[k] < |after| == |rows|
    requires forall j :: 0 <= j < |rows| && j !in order[..k] ==> after[j] == rows[j]
    ensures forall j :: 0 <= j < |rows| && j !in order[..k + 1] ==> after[order[k] := b][j] == rows[j]
  {
    assert order[..k + 1] == order[..k] + [order[k]];
  }

  /** Replacing a row by one listing a part of its IDs keeps the rows clean
      once the rest of its IDs are locked. */
  lemma CleanUpdate(cols: set<Column>, after: seq<Shipment>, j: nat, b: Shipment,
                    tracked: set<string>, now: set<string>)
    requires Clean(cols, after, tracked) && j < |after|
    requires Consistent(cols, b, now) && RowIdSet(cols, b) <= RowIdSet(cols, after[j])
    requires tracked <= now && now - tracked <= RowIdSet(cols, after[j])
    ensures Clean(cols, after[j := b], now)
  {
    var after' := after[j := b];
    assert forall i :: 0 <= i < |after'| ==> Consistent(cols, after'[i], now) by {
      forall i | 0 <= i < |after'| && i != j ensures Consistent(cols, after'[i], now) {
        OtherRowConsistent(cols, after, i, j, tracked, now);
      }
    }
    PairsUpdate(cols, after, j, b);
  }

  /** Shrinking one row's IDs keeps every two rows apart. */
  lemma PairsUpdate(cols: set<Column>, after: seq<Shipment>, j: nat, b: Shipment)
    requires j < |after| && RowIdSet(cols, b) <= RowIdSet(cols, after[j])
    requires Separate(cols, after)
    ensures Separate(cols, after[j := b])
  {
    var after' := after[j := b];
    forall i, i' | 0 <= i < i' < |after'| ensures RowIdSet(cols, after'[i]) !! RowIdSet(cols, after'[i']) {
      assert RowIdSet(cols, after[i]) !! RowIdSet(cols, after[i']);
    }
  }

  /** A row other than the one visited stays consistent: the IDs locked by
      the visit belong to the visited row, which shares none with it. */
  lemma OtherRowConsistent(cols: set<Column>, after: seq<Shipment>, i: nat, j: nat,
                           tracked: set<string>, now: set<string>)
    requires Clean(cols, after, tracked) && i < |after| && j < |after| && i != j
    requires tracked <= now && now - tracked <= RowIdSet(cols, after[j])
    ensures Consistent(cols, after[i], now)
  {
    assert Consistent(cols, after[i], tracked);
    if i < j {
      assert RowIdSet(cols, after[i]) !! RowIdSet(cols, after[j]);
    } else {
      assert RowIdSet(cols, after[j]) !! RowIdSet(cols, after[i]);
    }
  }

  /** A visit that takes nothing keeps the balance. */
  lemma BalanceIdle(cols: set<Column>, rows: seq<Shipment>, order: seq<nat>, k: nat,
                    after: seq<Shipment>, count: nat, tracked: set<string>)
    requires k < |order|
    requires Settled(cols, rows, order, k, after, count, tracked)
    ensures Settled(cols, rows, order, k + 1, after, count, tracked)
  {
    assert order[..k + 1] == order[..k] + [order[k]];
  }

  lemma {:induction false} LockedCountAppend(a: seq<Locked>, b: seq<Locked>)
    ensures LockedCount(a + b) == LockedCount(a) + LockedCount(b)
    decreases |b|
  {
    if |b| == 0 {
      assert a + b == a;
    } else {
      assert (a + b)[..|a + b| - 1] == a + b[..|b| - 1];
      LockedCountAppend(a, b[..|b| - 1]);
    }
  }

  /** Dropping records never adds containers. */
  lemma {:induction false} LockedCountFilter(ls: seq<Locked>, p: Locked -> bool)
    requires forall m :: 0 <= m < |ls| ==> ls[m].row.count >= 0
    ensures LockedCount(Filter(ls, p)) <= LockedCount(ls)
  {
    if |ls| > 0 {
      var n := |ls| - 1;
      LockedCountFilter(ls[..n], p);
      FilterSnoc(ls, p);
      var f := Filter(ls[..n], p);
      if p(ls[n]) {
        LockedCountAppend(f, [ls[n]]);
      }
    }
  }

  /** Dropping a record that holds containers loses them. */
  lemma {:induction false} LockedCountDrop(ls: seq<Locked>, p: Locked -> bool, m: nat)
    requires forall i :: 0 <= i < |ls| ==> ls[i].row.count > 0
    requires m < |ls| && !p(ls[m])
    ensures LockedCount(Filter(ls, p)) < LockedCount(ls)
  {
    var n := |ls| - 1;
    FilterSnoc(ls, p);
    var f := Filter(ls[..n], p);
    if m == n {
      LockedCountFilter(ls[..n], p);
    } else {
      LockedCountDrop(ls[..n], p, m);
      if p(ls[n]) {
        LockedCountAppend(f, [ls[n]]);
      }
    }
  }

  /** With every count non-negative, dropping the rows without containers
      keeps the total. */
  lemma {:induction false} DropEmptyKeepsTotal(rows: seq<Shipment>)
    requires forall j :: 0 <= j < |rows| ==> rows[j].count >= 0
    ensures SumCounts(Filter(rows, HasContainers)) == SumCounts(rows)
  {
    if |rows| > 0 {
      var n := |rows| - 1;
      DropEmptyKeepsTotal(rows[..n]);
      FilterSnoc(rows, HasContainers);
      var f := Filter(rows[..n], HasContainers);
      if HasContainers(rows[n]) {
        SumCountsAppend(f, [rows[n]]);
        assert (f + [rows[n]])[..|f|] == f;
      }
    }
  }

  /** One turn of the greedy loop: row `order[k]` gives what it can. */
  method AllocateNext(tracker: Tracker, cols: set<Column>, rows: seq<Shipment>, order: seq<nat>, k: nat,
                      target: nat, carrier: Option<string>, priority: real,
                      after: seq<Shipment>, taken: seq<Locked>, count: nat, ghost before: set<string>)
    returns (after': seq<Shipment>, taken': seq<Locked>, count': nat)
    requires k < |order| && order[k] < |rows| && count < target
    requires Progress(cols, rows, order, target, carrier, priority, after, taken, count, before, tracker.claims.Keys)
    modifies tracker
    ensures Progress(cols, rows, order, target, carrier, priority, after', taken', count', before, tracker.claims.Keys)
    ensures NoDup(order) && Settled(cols, rows, order, k, after, count, old(tracker.claims.Keys)) ==>
              Settled(cols, rows, order, k + 1, after', count', tracker.claims.Keys)
  {
    var j := order[k];
    ghost var tracked := tracker.claims.Keys;
    var got, left := tracker.AllocateSpecificContainers(cols, rows[j], j, target - count, carrier);
    after', taken', count' := after, taken, count;
    if |got| > 0 {
      ProgressStep(cols, rows, order, target, carrier, priority, after, taken, count, before, tracked, j,
                   got, left, tracker.claims.Keys);
      if NoDup(order) && Settled(cols, rows, order, k, after, count, tracked) {
        BalanceStep(cols, rows, order, k, after, count, tracked, target - count, got, left, tracker.claims.Keys);
      }
      taken' := taken + [Locked(Assigned(cols, rows[j], got, carrier), priority)];
      count' := count + |got|;
      after' := after[j := Rest(rows[j], left)];
    } else {
      assert tracker.claims.Keys == tracked;
      if Settled(cols, rows, order, k, after, count, tracked) {
        BalanceIdle(cols, rows, order, k, after, count, tracked);
      }
    }
  }

  /** The greedy loop of `apply_constraints_to_data` over the eligible rows
      in week order: each row gives at most what is still needed, and the
      loop stops once the target is reached. */
  method AllocateRows(tracker: Tracker, cols: set<Column>, rows: seq<Shipment>, order: seq<nat>,
                      target: nat, carrier: Option<string>, priority: real)
    returns (after: seq<Shipment>, taken: seq<Locked>, count: nat)
    requires forall k :: 0 <= k < |order| ==> order[k] < |rows|
    modifies tracker
    ensures Progress(cols, rows, order, target, carrier, priority, after, taken, count,
                     old(tracker.claims.Keys), tracker.claims.Keys)
    ensures NoDup(order) && Clean(cols, rows, old(tracker.claims.Keys)) ==>
              Clean(cols, after, tracker.claims.Keys) && SumCounts(after) + count == SumCounts(rows)
  {
    after, taken, count := rows, [], 0;
    var k := 0;
    while k < |order| && count < target
      invariant 0 <= k <= |order|
      invariant Progress(cols, rows, order, target, carrier, priority, after, taken, count,
                         old(tracker.claims.Keys), tracker.claims.Keys)
      invariant NoDup(order) && Clean(cols, rows, old(tracker.claims.Keys)) ==>
                  Settled(cols, rows, order, k, after, count, tracker.claims.Keys)
    {
      after, taken, count := AllocateNext(tracker, cols, rows, order, k, target, carrier, priority,
                                          after, taken, count, old(tracker.claims.Keys));
      k := k + 1;
    }
  }

  // ---------------------------------------------------------------------
  // `apply_constraints_to_data`
  // ---------------------------------------------------------------------

  /** How a constraint ended, as its summary entry reports it. */
  datatype Status =
    | ExcludedWithoutCarrier | NoMatchingData | MaxWithoutCarrier | NoAllocationAmount | Failed | Applied

  /** One entry of `constraint_summary`. */
  datatype Entry = Entry(priority: real, status: Status, locks: nat, target: Option<nat>)

  /** What an entry says about its constraint whatever the data: the error
      and skip cases lock nothing, a hard cap is always applied (or fails on
      its excluded facility), and an applied constraint never exceeds its
      target. */
  predicate Reported(c: Constraint, e: Entry)
  {
    e.priority == c.priority &&
    (e.status == ExcludedWithoutCarrier <==> Valid(c.excluded) && !Valid(c.carrier)) &&
    (e.status == MaxWithoutCarrier ==> Positive(c.maximum) && !Valid(c.carrier)) &&
    (e.status == NoAllocationAmount ==> !Positive(c.maximum) && !Positive(c.minimum) && !Positive(c.percent)) &&
    (IsCap(c) ==> e.status == Applied || e.status == Failed) &&
    (e.status == Applied ==> e.target.Some? && e.locks <= e.target.value) &&
    (e.status != Applied ==> e.locks == 0)
  }

  /** Every row is the data row or that row with its IDs and count rewritten. */
  ghost predicate Touched(rows: seq<Shipment>, after: seq<Shipment>)
  {
    |after| == |rows| && forall j :: 0 <= j < |rows| ==> after[j] == rows[j] || Rewritten(rows[j], after[j])
  }

  lemma TouchedTrans(a: seq<Shipment>, b: seq<Shipment>, c: seq<Shipment>)
    requires Touched(a, b) && Touched(b, c)
    ensures Touched(a, c)
  {
    forall j | 0 <= j < |a| ensures c[j] == a[j] || Rewritten(a[j], c[j]) {
      if c[j] != b[j] && b[j] != a[j] {
        assert c[j].(ids := a[j].ids, count := a[j].count) == a[j];
      }
    }
  }

  lemma KeptIsTouched(rows: seq<Shipment>, order: seq<nat>, after: seq<Shipment>)
    requires RowsKept(rows, order, after)
    ensures Touched(rows, after)
  {
  }

  /** The records so far: each holds as many containers as IDs, all of them
      tracked, and no ID is held twice. */
  ghost predicate Held(locked: seq<Locked>, keys: set<string>)
  {
    (forall m :: 0 <= m < |locked| ==>
       0 < locked[m].row.count == |ParseContainerIds(locked[m].row.ids)| && IdSet(locked[m].row.ids) <= keys) &&
    Disjoint(locked)
  }

  lemma HeldAppend(cols: set<Column>, carrier: Option<string>, priority: real,
                   locked: seq<Locked>, taken: seq<Locked>, before: set<string>, now: set<string>)
    requires Held(locked, before)
    requires RecordsOk(cols, carrier, priority, taken, before, now)
    ensures Held(locked + taken, now)
  {
    var t := locked + taken;
    forall i, j | 0 <= i < j < |t| ensures Apart(t[i], t[j]) {
      if i < |locked| && j >= |locked| {
        assert t[j] == taken[j - |locked|];
      } else if i >= |locked| {
        assert t[i] == taken[i - |locked|] && t[j] == taken[j - |locked|];
      }
    }
  }

  lemma HeldFilter(locked: seq<Locked>, p: Locked -> bool, keys: set<string>)
    requires Held(locked, keys)
    ensures Held(Filter(locked, p), keys)
  {
    FilterPairwise(locked, p, Apart);
    var f := Filter(locked, p);
    forall m | 0 <= m < |f|
      ensures 0 < f[m].row.count == |ParseContainerIds(f[m].row.ids)| && IdSet(f[m].row.ids) <= keys
    {
      assert f[m] in locked;
    }
  }

  /** `record.get('Carrier') == target or record.get('Dray SCAC(FL)') ==
      target`, at the excluded facility. */
  predicate Violates(cols: set<Column>, l: Locked, carrier: string, code: string)
  {
    ((CARRIER_ALT in cols && l.row.carrierAlt == Some(carrier)) || (CARRIER in cols && l.row.carrier == Some(carrier))) &&
    NormalizeFacilityCode(if FACILITY in cols then l.row.facility else None) == code
  }

  function Complies(cols: set<Column>, carrier: string, code: string): Locked -> bool
  {
    (l: Locked) => !Violates(cols, l, carrier, code)
  }

  /** The carriers with a Maximum constraint. */
  function CappedCarriers(cs: seq<Constraint>): set<string>
  {
    if |cs| == 0 then {}
    else CappedCarriers(cs[..|cs| - 1]) + (if IsCap(cs[|cs| - 1]) then {cs[|cs| - 1].carrier.value} else {})
  }

  lemma CappedSnoc(cs: seq<Constraint>, i: nat)
    requires i < |cs|
    ensures CappedCarriers(cs[..i + 1]) == CappedCarriers(cs[..i]) + if IsCap(cs[i]) then {cs[i].carrier.value} else {}
  {
    assert cs[..i + 1][..i] == cs[..i];
  }

  /** `max_constrained_carriers` holds exactly the carriers named by a
      positive Maximum constraint. */
  lemma {:induction false} CappedCarriersSpec(cs: seq<Constraint>, x: string)
    ensures x in CappedCarriers(cs) <==> exists k :: 0 <= k < |cs| && IsCap(cs[k]) && cs[k].carrier.value == x
  {
    if |cs| > 0 {
      var init := cs[..|cs| - 1];
      CappedCarriersSpec(init, x);
      if x in CappedCarriers(init) {
        var k :| 0 <= k < |init| && IsCap(init[k]) && init[k].carrier.value == x;
        assert cs[k] == init[k];
      }
      if exists k :: 0 <= k < |cs| && IsCap(cs[k]) && cs[k].carrier.value == x {
        var k :| 0 <= k < |cs| && IsCap(cs[k]) && cs[k].carrier.value == x;
        if k < |init| {
          assert init[k] == cs[k];
        }
      }
    }
  }

  /** The target of an applied constraint is the one the target rule gives
      for the containers still available in its eligible rows. */
  ghost predicate Planned(cols: set<Column>, cs: seq<Constraint>, c: Constraint, rows: seq<Shipment>,
                          tracked: set<string>, e: Entry)
  {
    var total := AvailableTotal(cols, rows, Eligible(cols, rows, c, ExcludedCodes(c, cs), tracked), tracked);
    var plan := TargetRule(c, Valid(c.carrier), total);
    plan.Allocate? && e.target == Some(plan.target)
  }

  /** `after` keeps the records of `before` and appends records holding `n` containers. */
  ghost predicate Extends(before: seq<Locked>, after: seq<Locked>, n: nat)
  {
    |before| <= |after| && after[..|before|] == before && LockedCount(after[|before|..]) == n
  }

  /** The allocation and excluded-facility check of one constraint whose
      target is known: greedy allocation over the eligible rows in week
      order, then, when the constraint names an excluded facility, failure
      if any record for its carrier sits there. */
  method LockTarget(tracker: Tracker, cols: set<Column>, c: Constraint, carrier: Option<string>,
                    rows: seq<Shipment>, locked: seq<Locked>, elig: seq<nat>, target: nat)
    returns (rows': seq<Shipment>, locked': seq<Locked>, e: Entry)
    requires forall k :: 0 <= k < |elig| ==> elig[k] < |rows|
    requires NoDup(elig)
    requires Held(locked, tracker.claims.Keys)
    requires Valid(c.excluded) ==> carrier.Some?
    modifies tracker
    ensures e.priority == c.priority && e.target == Some(target)
    ensures e.status == Applied || e.status == Failed
    ensures e.status == Applied ==> e.locks <= target
    ensures e.status != Applied ==> e.locks == 0
    ensures Touched(rows, rows')
    ensures Held(locked', tracker.claims.Keys)
    ensures old(tracker.claims.Keys) <= tracker.claims.Keys
    ensures e.status == Applied ==> Extends(locked, locked', e.locks)
    ensures !(target > 0 && |elig| > 0) ==> rows' == rows && e.locks == 0 && |locked'| <= |locked|
    ensures Clean(cols, rows, old(tracker.claims.Keys)) ==>
              Clean(cols, rows', tracker.claims.Keys) && Accounted(locked', rows') <= Accounted(locked, rows) &&
              (e.status == Applied <==> Accounted(locked', rows') == Accounted(locked, rows))
  {
    ByWeekIsOrder(rows);
    var order := SortPositions(elig, ByWeek(rows), |rows|);
    var after, taken, count := rows, [], 0;
    ghost var tracked := tracker.claims.Keys;
    if target > 0 && |elig| > 0 {
      after, taken, count := AllocateRows(tracker, cols, rows, order, target, carrier, c.priority);
    }
    assert Clean(cols, rows, tracked) ==>
             Clean(cols, after, tracker.claims.Keys) && SumCounts(after) + count == SumCounts(rows);
    assert count == LockedCount(taken);
    KeptIsTouched(rows, order, after);
    HeldAppend(cols, carrier, c.priority, locked, taken, tracked, tracker.claims.Keys);
    assert (locked + taken)[..|locked|] == locked && (locked + taken)[|locked|..] == taken;
    LockedCountAppend(locked, taken);
    rows', locked' := after, locked + taken;
    if Valid(c.excluded) {
      var code := NormalizeFacilityCode(c.excluded);
      if exists k :: 0 <= k < |locked'| && Violates(cols, locked'[k], carrier.value, code) {
        HeldFilter(locked', Complies(cols, carrier.value, code), tracker.claims.Keys);
        var k :| 0 <= k < |locked'| && Violates(cols, locked'[k], carrier.value, code);
        LockedCountDrop(locked', Complies(cols, carrier.value, code), k);
        locked' := Filter(locked', Complies(cols, carrier.value, code));
        e := Entry(c.priority, Failed, 0, Some(target));
        return;
      }
    }
    e := Entry(c.priority, Applied, count, Some(target));
  }

  /** The constraint reaches the allocation, where its eligible rows are
      sorted by week: some row is eligible and the target is positive. */
  ghost predicate Allocates(cols: set<Column>, cs: seq<Constraint>, c: Constraint, rows: seq<Shipment>,
                            tracked: set<string>)
  {
    var elig := Eligible(cols, rows, c, ExcludedCodes(c, cs), tracked);
    var plan := TargetRule(c, Valid(c.carrier), AvailableTotal(cols, rows, elig, tracked));
    |elig| > 0 && plan.Allocate? && plan.target > 0
  }

  /** One iteration of the constraint loop of `apply_constraints_to_data`.
      `raised` is the column whose absence raises KeyError: a Lane or Week
      Number filter on a table without that column, or the week sort of an
      allocation on a table without Week Number. */
  method ApplyConstraint(tracker: Tracker, cols: set<Column>, cs: seq<Constraint>, c: Constraint,
                         rows: seq<Shipment>, locked: seq<Locked>)
    returns (rows': seq<Shipment>, locked': seq<Locked>, e: Entry, capped: Option<string>, raised: Option<Column>)
    requires Held(locked, tracker.claims.Keys)
    modifies tracker
    ensures raised.Some? <==>
              !(Valid(c.excluded) && !Valid(c.carrier)) &&
              (MissingFilterColumn(cols, c).Some? || (WEEK !in cols && Allocates(cols, cs, c, rows, old(tracker.claims.Keys))))
    ensures raised.Some? ==>
              raised == (if MissingFilterColumn(cols, c).Some? then MissingFilterColumn(cols, c) else Some(WEEK))
    ensures raised.Some? ==> rows' == rows && locked' == locked && tracker.claims == old(tracker.claims)
    ensures raised.None? ==> Reported(c, e)
    ensures raised.None? ==> capped == if IsCap(c) then Some(c.carrier.value) else None
    ensures raised.None? && WEEK !in cols ==> e.locks == 0 && |locked'| <= |locked|
    ensures Touched(rows, rows')
    ensures Held(locked', tracker.claims.Keys)
    ensures old(tracker.claims.Keys) <= tracker.claims.Keys
    ensures e.status !in {Applied, Failed} ==>
              rows' == rows && locked' == locked && tracker.claims == old(tracker.claims)
    ensures e.status in {Applied, Failed} ==> Planned(cols, cs, c, rows, old(tracker.claims.Keys), e)
    ensures e.status == Applied ==> Extends(locked, locked', e.locks)
    ensures Clean(cols, rows, old(tracker.claims.Keys)) ==>
              Clean(cols, rows', tracker.claims.Keys) && Accounted(locked', rows') <= Accounted(locked, rows) &&
              (e.status != Failed <==> Accounted(locked', rows') == Accounted(locked, rows))
  {
    var carrier := if Valid(c.carrier) then c.carrier else None;
    rows', locked', capped, raised := rows, locked, None, None;
    if Valid(c.excluded) && carrier.None? {
      e := Entry(c.priority, ExcludedWithoutCarrier, 0, None);
      return;
    }
    // The entry of a raised constraint is never reported.
    e := Entry(c.priority, NoMatchingData, 0, None);
    raised := MissingFilterColumn(cols, c);
    if raised.Some? {
      return;
    }
    var sortRaised;
    rows', locked', e, capped, sortRaised := AllotConstraint(tracker, cols, cs, c, carrier, rows, locked);
    if sortRaised {
      raised := Some(WEEK);
    }
  }

  /** The part of one iteration after the filters: the eligible rows, the
      target and the allocation. `sortRaised` says that the allocation sorts
      by week a table without Week Number, which raises KeyError. */
  method AllotConstraint(tracker: Tracker, cols: set<Column>, cs: seq<Constraint>, c: Constraint,
                         carrier: Option<string>, rows: seq<Shipment>, locked: seq<Locked>)
    returns (rows': seq<Shipment>, locked': seq<Locked>, e: Entry, capped: Option<string>, sortRaised: bool)
    requires Held(locked, tracker.claims.Keys)
    requires carrier == if Valid(c.carrier) then c.carrier else None
    requires !(Valid(c.excluded) && carrier.None?)
    modifies tracker
    ensures sortRaised <==> WEEK !in cols && Allocates(cols, cs, c, rows, old(tracker.claims.Keys))
    ensures sortRaised ==> rows' == rows && locked' == locked && tracker.claims == old(tracker.claims)
    ensures !sortRaised ==> Reported(c, e)
    ensures !sortRaised ==> capped == if IsCap(c) then Some(c.carrier.value) else None
    ensures !sortRaised && WEEK !in cols ==> e.locks == 0 && |locked'| <= |locked|
    ensures Touched(rows, rows')
    ensures Held(locked', tracker.claims.Keys)
    ensures old(tracker.claims.Keys) <= tracker.claims.Keys
    ensures e.status !in {Applied, Failed} ==>
              rows' == rows && locked' == locked && tracker.claims == old(tracker.claims)
    ensures e.status in {Applied, Failed} ==> Planned(cols, cs, c, rows, old(tracker.claims.Keys), e)
    ensures e.status == Applied ==> Extends(locked, locked', e.locks)
    ensures Clean(cols, rows, old(tracker.claims.Keys)) ==>
              Clean(cols, rows', tracker.claims.Keys) && Accounted(locked', rows') <= Accounted(locked, rows) &&
              (e.status != Failed <==> Accounted(locked', rows') == Accounted(locked, rows))
  {
    rows', locked', capped, sortRaised := rows, locked, None, false;
    var tracked := tracker.claims.Keys;
    var elig := Eligible(cols, rows, c, ExcludedCodes(c, cs), tracked);
    var total := AvailableTotal(cols, rows, elig, tracked);
    if |elig| == 0 && !(Positive(c.maximum) && carrier.Some?) {
      e := Entry(c.priority, NoMatchingData, 0, None);
      return;
    }
    var plan := TargetRule(c, carrier.Some?, total);
    TargetPriority(c, carrier.Some?, total);
    if plan == MaxNeedsCarrier {
      e := Entry(c.priority, MaxWithoutCarrier, 0, None);
      return;
    }
    if plan == NoAmount {
      e := Entry(c.priority, NoAllocationAmount, 0, None);
      return;
    }
    if plan.target > 0 && |elig| > 0 && WEEK !in cols {
      // The entry of a raised constraint is never reported.
      e := Entry(c.priority, NoMatchingData, 0, None);
      sortRaised := true;
      return;
    }
    if plan.basis == MaxCount {
      capped := carrier;
    }
    rows', locked', e := LockTarget(tracker, cols, c, carrier, rows, locked, elig, plan.target);
  }

  /** No constraint ended Failed. */
  predicate NoneFailed(summary: seq<Entry>)
  {
    forall k :: 0 <= k < |summary| ==> summary[k].status != Failed
  }

  /** The balance of the constraint loop: every container of the table is
      still accounted for, or lost to a Failed constraint. */
  ghost predicate Balanced(t: Table, rows: seq<Shipment>, locked: seq<Locked>, summary: seq<Entry>, keys: set<string>)
  {
    Clean(t.columns, rows, keys) && Accounted(locked, rows) <= SumCounts(t.rows) &&
    (NoneFailed(summary) <==> Accounted(locked, rows) == SumCounts(t.rows))
  }

  lemma BalancedSnoc(t: Table, rows: seq<Shipment>, locked: seq<Locked>, summary: seq<Entry>, keys: set<string>,
                     rows': seq<Shipment>, locked': seq<Locked>, e: Entry, keys': set<string>)
    requires Balanced(t, rows, locked, summary, keys)
    requires Clean(t.columns, rows', keys') && Accounted(locked', rows') <= Accounted(locked, rows)
    requires e.status != Failed <==> Accounted(locked', rows') == Accounted(locked, rows)
    ensures Balanced(t, rows', locked', summary + [e], keys')
  {
    assert forall k :: 0 <= k < |summary| ==> (summary + [e])[k] == summary[k];
    assert (summary + [e])[|summary|] == e;
    assert NoneFailed(summary + [e]) <==> NoneFailed(summary) && e.status != Failed;
  }

  lemma BalancedEnd(t: Table, rows: seq<Shipment>, locked: seq<Locked>, summary: seq<Entry>, keys: set<string>)
    requires Balanced(t, rows, locked, summary, keys)
    ensures Accounted(locked, Filter(rows, HasContainers)) == Accounted(locked, rows)
  {
    DropEmptyKeepsTotal(rows);
  }

  function HasContainers(r: Shipment): bool
  {
    r.count > 0
  }

  /** What `apply_constraints_to_data` returns: the constrained records, the
      rows still holding containers, one summary entry per constraint and
      the carriers under a hard cap. */
  datatype Allotment = Allotment(locked: seq<Locked>, remaining: seq<Shipment>, summary: seq<Entry>,
                                 maxCarriers: set<string>)

  /** The constraint reaches its filters and one of them indexes a column
      the table lacks. */
  predicate Unfilterable(cols: set<Column>, c: Constraint)
  {
    !(Valid(c.excluded) && !Valid(c.carrier)) && MissingFilterColumn(cols, c).Some?
  }

  /** What the first `i` constraints of the loop leave: one entry each, none
      stopped by a missing column, nothing locked when the table has no Week
      Number, the capped carriers, the rows rewritten in place, the records
      holding their IDs, and the balance. */
  ghost predicate LoopState(t: Table, cs: seq<Constraint>, i: nat, rows: seq<Shipment>, locked: seq<Locked>,
                           summary: seq<Entry>, maxCarriers: set<string>, keys: set<string>)
  {
    i <= |cs| && |summary| == i &&
    (forall k :: 0 <= k < i ==> Reported(cs[k], summary[k]) && !Unfilterable(t.columns, cs[k])) &&
    (WEEK !in t.columns ==> locked == [] && forall k :: 0 <= k < i ==> summary[k].locks == 0) &&
    maxCarriers == CappedCarriers(cs[..i]) &&
    Touched(t.rows, rows) &&
    Held(locked, keys) &&
    (ListsEachOnce(t) ==> Balanced(t, rows, locked, summary, keys))
  }

  /** One constraint that raised nothing extends the loop's state. */
  lemma LoopStep(t: Table, cs: seq<Constraint>, i: nat, rows: seq<Shipment>, locked: seq<Locked>,
                     summary: seq<Entry>, maxCarriers: set<string>, keys: set<string>,
                     rows': seq<Shipment>, locked': seq<Locked>, e: Entry, capped: Option<string>, keys': set<string>)
    requires LoopState(t, cs, i, rows, locked, summary, maxCarriers, keys)
    requires i < |cs|
    requires Reported(cs[i], e) && !Unfilterable(t.columns, cs[i])
    requires capped == if IsCap(cs[i]) then Some(cs[i].carrier.value) else None
    requires Touched(rows, rows') && Held(locked', keys')
    requires WEEK !in t.columns ==> e.locks == 0 && |locked'| <= |locked|
    requires Clean(t.columns, rows, keys) ==>
               Clean(t.columns, rows', keys') && Accounted(locked', rows') <= Accounted(locked, rows) &&
               (e.status != Failed <==> Accounted(locked', rows') == Accounted(locked, rows))
    ensures LoopState(t, cs, i + 1, rows', locked', summary + [e],
                     if capped.Some? then maxCarriers + {capped.value} else maxCarriers, keys')
  {
    CappedSnoc(cs, i);
    TouchedTrans(t.rows, rows, rows');
    forall k | 0 <= k < i + 1
      ensures Reported(cs[k], (summary + [e])[k]) && !Unfilterable(t.columns, cs[k])
      ensures WEEK !in t.columns ==> (summary + [e])[k].locks == 0
    {
      if k < i {
        assert (summary + [e])[k] == summary[k];
      }
    }
    if ListsEachOnce(t) {
      BalancedSnoc(t, rows, locked, summary, keys, rows', locked', e, keys');
    }
  }

  /** The loop over the constraints of `apply_constraints_to_data`, stopped
      by the first KeyError. `rows` is the table after the constraints that
      ran and `keys` the IDs they locked. */
  method ConstraintLoop(t: Table, cs: seq<Constraint>)
    returns (rows: seq<Shipment>, locked: seq<Locked>, summary: seq<Entry>, maxCarriers: set<string>,
             raised: Option<Column>, ghost keys: set<string>)
    ensures raised.Some? ==> raised.value in {LANE, WEEK}
    ensures raised.Some? && WEEK in t.columns ==> exists k :: 0 <= k < |cs| && Unfilterable(t.columns, cs[k])
    ensures raised.Some? ==> Touched(t.rows, rows) && Held(locked, keys)
    ensures raised.None? ==> LoopState(t, cs, |cs|, rows, locked, summary, maxCarriers, keys)
  {
    var tracker := new Tracker();
    rows, locked, summary, maxCarriers, raised := t.rows, [], [], {}, None;
    for i := 0 to |cs|
      invariant LoopState(t, cs, i, rows, locked, summary, maxCarriers, tracker.claims.Keys)
    {
      ghost var before := tracker.claims.Keys;
      var rows', locked', e, capped, raisedHere := ApplyConstraint(tracker, t.columns, cs, cs[i], rows, locked);
      if raisedHere.Some? {
        assert WEEK in t.columns ==> Unfilterable(t.columns, cs[i]);
        raised, keys := raisedHere, tracker.claims.Keys;
        return;
      }
      LoopStep(t, cs, i, rows, locked, summary, maxCarriers, before, rows', locked', e, capped, tracker.claims.Keys);
      rows, locked, summary := rows', locked', summary + [e];
      if capped.Some? {
        maxCarriers := maxCarriers + {capped.value};
      }
    }
    keys := tracker.claims.Keys;
  }

  /** `apply_constraints_to_data`: the constraints in priority order, each
      locking IDs to its carrier. A table without Container Count, a Lane or
      Week Number filter on a table without that column, and an allocation
      on a table without Week Number raise KeyError. `touched` is the table
      after the loop, before rows without containers are dropped. */
  method ApplyConstraintsToData(t: Table, cs: seq<Constraint>) returns (r: Result<Allotment>, ghost touched: seq<Shipment>)
    ensures |cs| == 0 ==> r == Success(Allotment([], t.rows, [], {}))
    ensures r.Failure? ==> r.error in {KeyError(LANE), KeyError(WEEK), KeyError(COUNT)}
    ensures |cs| > 0 && COUNT !in t.columns ==> r.Failure?
    ensures (exists k :: 0 <= k < |cs| && Unfilterable(t.columns, cs[k])) ==> r.Failure?
    ensures WEEK in t.columns ==>
              (r.Failure? <==> |cs| > 0 && (COUNT !in t.columns || exists k :: 0 <= k < |cs| && Unfilterable(t.columns, cs[k])))
    ensures r.Success? && WEEK !in t.columns ==>
              r.value.locked == [] && forall k :: 0 <= k < |r.value.summary| ==> r.value.summary[k].locks == 0
    ensures r.Success? && |cs| > 0 ==>
              |r.value.summary| == |cs| && forall k :: 0 <= k < |cs| ==> Reported(cs[k], r.value.summary[k])
    ensures r.Success? ==> r.value.maxCarriers == CappedCarriers(cs)
    ensures Touched(t.rows, touched)
    ensures r.Success? && |cs| > 0 ==> r.value.remaining == Filter(touched, HasContainers)
    ensures r.Success? ==>
              forall m :: 0 <= m < |r.value.locked| ==>
                0 < r.value.locked[m].row.count == |ParseContainerIds(r.value.locked[m].row.ids)|
    ensures r.Success? ==> Disjoint(r.value.locked)
    ensures r.Success? && ListsEachOnce(t) ==> Accounted(r.value.locked, r.value.remaining) <= SumCounts(t.rows)
    ensures r.Success? && ListsEachOnce(t) ==>
              (NoneFailed(r.value.summary) <==> Accounted(r.value.locked, r.value.remaining) == SumCounts(t.rows))
  {
    if |cs| == 0 {
      return Success(Allotment([], t.rows, [], {})), t.rows;
    }
    var rows, locked, summary, maxCarriers, raised, keys := ConstraintLoop(t, cs);
    touched := rows;
    if raised.Some? {
      return Failure(KeyError(raised.value)), rows;
    }
    assert cs[..|cs|] == cs;
    if COUNT !in t.columns {
      return Failure(KeyError(COUNT)), rows;
    }
    var remaining := Filter(rows, HasContainers);
    if ListsEachOnce(t) {
      BalancedEnd(t, rows, locked, summary, keys);
    }
    r := Success(Allotment(locked, remaining, summary, maxCarriers));
  }
}
