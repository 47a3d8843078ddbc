/** The advanced constraints of components/constraints_advanced.py: an
    uploaded sheet of (category, carrier, lane, weeks) scopes with a
    maximum, minimum or percent allocation and a priority score is
    validated into rules, and the rules, highest priority first, pin
    containers of the allocation table before optimisation. */
module ConstraintsAdvanced {
  import opened Wrappers
  import opened Seqs
  import opened Text
  import opened PyMath
  import opened Frame
  import CP = ConstraintsProcessor

  // ---------------------------------------------------------------------
  // `validate_and_process_constraints`
  // ---------------------------------------------------------------------

  /** The columns of an uploaded constraints sheet. */
  datatype Field =
    | CategoryField | CarrierField | LaneField | WeekField
    | MaximumField | MinimumField | PercentField | PriorityField | NotesField

  /** One sheet row; the scope and notes columns hold text. */
  datatype SheetRow = SheetRow(
    category: Option<string>,
    carrier: Option<string>,
    lane: Option<string>,
    week: CP.SheetCell,
    maximum: CP.SheetCell,
    minimum: CP.SheetCell,
    percent: CP.SheetCell,
    priority: CP.SheetCell,
    notes: Option<string>)

  datatype Sheet = Sheet(columns: set<Field>, rows: seq<SheetRow>)

  /** A validated constraint. */
  datatype Rule = Rule(
    category: Option<string>,
    carrier: Option<string>,
    lane: Option<string>,
    weeks: Option<seq<int>>,
    maximum: Option<real>,
    minimum: Option<real>,
    percent: Option<real>,
    priority: Option<real>,
    notes: Option<string>)

  const DEFAULT_PRIORITY: real := 50.0

  predicate HasScope(cols: set<Field>)
  {
    CategoryField in cols || CarrierField in cols || LaneField in cols || WeekField in cols
  }

  predicate HasLimit(cols: set<Field>)
  {
    MaximumField in cols || MinimumField in cols || PercentField in cols
  }

  function TextIn(cols: set<Field>, f: Field, v: Option<string>): Option<string>
  {
    if f in cols then v else None
  }

  function NumberIn(cols: set<Field>, f: Field, v: CP.SheetCell): CP.SheetCell
  {
    if f in cols then v else CP.NoValue
  }

  /** A missing sheet column is added as an all-empty column. */
  function Filled(sheet: Sheet): (rows: seq<SheetRow>)
    ensures |rows| == |sheet.rows|
    ensures forall i :: 0 <= i < |rows| ==> (rows[i].category.Some? ==> CategoryField in sheet.columns)
    ensures forall i :: 0 <= i < |rows| ==> (rows[i].priority != CP.NoValue ==> PriorityField in sheet.columns)
  {
    var cols := sheet.columns;
    seq(|sheet.rows|, i requires 0 <= i < |sheet.rows| =>
      var r := sheet.rows[i];
      SheetRow(TextIn(cols, CategoryField, r.category), TextIn(cols, CarrierField, r.carrier),
               TextIn(cols, LaneField, r.lane), NumberIn(cols, WeekField, r.week),
               NumberIn(cols, MaximumField, r.maximum), NumberIn(cols, MinimumField, r.minimum),
               NumberIn(cols, PercentField, r.percent), NumberIn(cols, PriorityField, r.priority),
               TextIn(cols, NotesField, r.notes)))
  }

  /** Every scope and limit cell of the row is empty. */
  predicate Blank(r: SheetRow)
  {
    r.category.None? && r.carrier.None? && r.lane.None? && r.week.NoValue? &&
    r.maximum.NoValue? && r.minimum.NoValue? && r.percent.NoValue?
  }

  /** `float(v)` for a non-empty cell; `None` for an empty one or a failed conversion. */
  function ToNumber(v: CP.SheetCell): (r: Option<real>)
    ensures v.Number? ==> r == Some(v.x)
    ensures v.NoValue? ==> r.None?
  {
    match v
    case NoValue => None
    case Number(x) => Some(x)
    case Chars(s) => ParseReal(s)
  }

  /** The `int(w.strip())` of every comma-separated piece, or `None` when one fails. */
  function ParseWeekList(parts: seq<string>): (r: Option<seq<int>>)
    ensures r.Some? ==> |r.value| == |parts|
    ensures r.Some? ==> forall k :: 0 <= k < |parts| ==> ParseInt(parts[k]) == Some(r.value[k])
  {
    if |parts| == 0 then Some([])
    else
      var front := parts[..|parts| - 1];
      var init := ParseWeekList(front);
      var last := ParseInt(parts[|parts| - 1]);
      assert forall k :: 0 <= k < |front| ==> front[k] == parts[k];
      if init.Some? && last.Some? then Some(init.value + [last.value]) else None
  }

  /** The whole cell is rejected as soon as one piece is not an integer. */
  lemma {:induction false} ParseWeekListFails(parts: seq<string>)
    ensures ParseWeekList(parts).None? <==> exists k :: 0 <= k < |parts| && ParseInt(parts[k]).None?
  {
    if |parts| > 0 {
      var init := parts[..|parts| - 1];
      ParseWeekListFails(init);
      if exists k :: 0 <= k < |init| && ParseInt(init[k]).None? {
        var k :| 0 <= k < |init| && ParseInt(init[k]).None?;
        assert parts[k] == init[k];
      }
      if exists k :: 0 <= k < |parts| && ParseInt(parts[k]).None? {
        var k :| 0 <= k < |parts| && ParseInt(parts[k]).None?;
        if k < |init| {
          assert init[k] == parts[k];
        }
      }
    }
  }

  /** The Week Number cell as a list of weeks: text is split on commas, a
      number becomes a one-week list, an empty or unparsable cell `None`. */
  function Weeks(v: CP.SheetCell): (r: Option<seq<int>>)
    ensures v.NoValue? ==> r.None?
    ensures v.Number? ==> r == Some([Trunc(v.x)])
  {
    match v
    case NoValue => None
    case Number(x) => Some([Trunc(x)])
    case Chars(s) => ParseWeekList(Split(s, ','))
  }

  function WeekTexts(ws: seq<int>): (r: seq<string>)
    ensures |r| == |ws|
    ensures forall k :: 0 <= k < |ws| ==> r[k] == IntToString(ws[k])
  {
    if |ws| == 0 then [] else WeekTexts(ws[..|ws| - 1]) + [IntToString(ws[|ws| - 1])]
  }

  lemma NoCommaInInt(n: int)
    ensures ',' !in IntToString(n)
  {
    var s := NatToString(if n < 0 then -n else n);
    assert forall k :: 0 <= k < |s| ==> IsDigit(s[k]);
    if n < 0 {
      assert IntToString(n) == "-" + s;
      assert forall k :: 0 <= k < |"-" + s| ==> ("-" + s)[k] != ',' by {
        forall k | 0 <= k < |"-" + s| ensures ("-" + s)[k] != ',' {
          if k > 0 { assert ("-" + s)[k] == s[k - 1]; }
        }
      }
    }
  }

  lemma {:induction false} ParseWeekListOfTexts(ws: seq<int>)
    ensures ParseWeekList(WeekTexts(ws)) == Some(ws)
  {
    if |ws| > 0 {
      var init := ws[..|ws| - 1];
      assert WeekTexts(ws)[..|ws| - 1] == WeekTexts(init);
      ParseWeekListOfTexts(init);
      ParseIntOfString(ws[|ws| - 1]);
      assert init + [ws[|ws| - 1]] == ws;
    }
  }

  /** A week list written as "32,33" reads back as [32, 33]. */
  lemma WeeksOfList(ws: seq<int>)
    requires |ws| > 0
    ensures Weeks(CP.Chars(Join(",", WeekTexts(ws)))) == Some(ws)
  {
    var ts := WeekTexts(ws);
    forall k | 0 <= k < |ts| ensures ',' !in ts[k] {
      NoCommaInInt(ws[k]);
    }
    SplitJoin(ts, ',');
    ParseWeekListOfTexts(ws);
  }

  /** A validated rule: a percent in [0, 100], a minimum no larger than the maximum. */
  predicate WellFormed(rule: Rule)
  {
    (rule.percent.Some? ==> 0.0 <= rule.percent.value <= 100.0) &&
    (rule.minimum.Some? && rule.maximum.Some? ==> rule.minimum.value <= rule.maximum.value)
  }

  /** The validation of one sheet row; `None` when the row is skipped. */
  function ProcessRow(r: SheetRow): (rule: Option<Rule>)
    ensures rule.Some? ==> WellFormed(rule.value)
  {
    var priority := ToNumber(if r.priority.NoValue? then CP.Number(DEFAULT_PRIORITY) else r.priority);
    var percent := ToNumber(r.percent);
    var lo := ToNumber(r.minimum);
    var hi := ToNumber(r.maximum);
    if Blank(r) then None
    else if percent.Some? && (percent.value < 0.0 || percent.value > 100.0) then None
    else if lo.Some? && hi.Some? && lo.value > hi.value then
      Some(Rule(r.category, r.carrier, r.lane, Weeks(r.week), lo, hi, percent, priority, r.notes))
    else
      Some(Rule(r.category, r.carrier, r.lane, Weeks(r.week), hi, lo, percent, priority, r.notes))
  }

  /** A row is skipped exactly when it is blank or its percent lies outside
      [0, 100]; a kept row keeps its scope, its parsed weeks and percent, the
      default priority when it has none, and its two limits, in order. */
  lemma ProcessRowSpec(r: SheetRow)
    ensures ProcessRow(r).None? <==>
              Blank(r) || (ToNumber(r.percent).Some? && !(0.0 <= ToNumber(r.percent).value <= 100.0))
    ensures ProcessRow(r).Some? ==>
              var rule := ProcessRow(r).value;
              rule.category == r.category && rule.carrier == r.carrier && rule.lane == r.lane &&
              rule.notes == r.notes && rule.weeks == Weeks(r.week) && rule.percent == ToNumber(r.percent) &&
              (r.priority.NoValue? ==> rule.priority == Some(DEFAULT_PRIORITY)) &&
              ({rule.minimum, rule.maximum} == {ToNumber(r.minimum), ToNumber(r.maximum)}) &&
              (rule.minimum.Some? != rule.maximum.Some? ==>
                 rule.minimum == ToNumber(r.minimum) && rule.maximum == ToNumber(r.maximum))
  {
  }

  /** The rules of the kept rows, in sheet order. */
  function ProcessRows(rows: seq<SheetRow>): (rules: seq<Rule>)
    ensures |rules| <= |rows|
    ensures forall k :: 0 <= k < |rules| ==> WellFormed(rules[k])
  {
    if |rows| == 0 then []
    else
      var init := ProcessRows(rows[..|rows| - 1]);
      match ProcessRow(rows[|rows| - 1])
      case Some(rule) => init + [rule]
      case None => init
  }

  /** Some row of `rows` yields `rule`. */
  predicate Yields(rows: seq<SheetRow>, rule: Rule)
  {
    AnyOf(rows, (r: SheetRow) => ProcessRow(r) == Some(rule))
  }

  /** Every kept row yields a rule and every rule comes from a kept row. */
  lemma {:induction false} ProcessRowsMembers(rows: seq<SheetRow>, rule: Rule)
    ensures rule in ProcessRows(rows) <==> Yields(rows, rule)
  {
    if |rows| > 0 {
      var init := rows[..|rows| - 1];
      ProcessRowsMembers(init, rule);
      ProcessRowsLast(rows, rule);
      AnyOfLast(rows, (r: SheetRow) => ProcessRow(r) == Some(rule));
    }
  }

  lemma ProcessRowsLast(rows: seq<SheetRow>, rule: Rule)
    requires |rows| > 0
    ensures rule in ProcessRows(rows) <==>
      rule in ProcessRows(rows[..|rows| - 1]) || ProcessRow(rows[|rows| - 1]) == Some(rule)
  {
  }

  /** Rules with a higher priority come first; a rule without one comes last. */
  predicate PriorityBefore(a: Option<real>, b: Option<real>)
  {
    a.Some? && (b.None? || a.value > b.value)
  }

  function PriorityAt(rules: seq<Rule>, i: nat): Option<real>
  {
    if i < |rules| then rules[i].priority else None
  }

  /** `sort_values('Priority Score', ascending=False)`, ties in sheet order. */
  function ByPriority(rules: seq<Rule>): (nat, nat) -> bool
  {
    (i: nat, j: nat) => PriorityBefore(PriorityAt(rules, i), PriorityAt(rules, j)) ||
                        (PriorityAt(rules, i) == PriorityAt(rules, j) && i < j)
  }

  lemma ByPriorityIsOrder(rules: seq<Rule>)
    ensures StrictOrderBelow(ByPriority(rules), |rules|)
  {
  }

  /** The rules by descending priority. */
  function SortRules(rules: seq<Rule>): (r: seq<Rule>)
    ensures |r| == |rules| && multiset(r) == multiset(rules)
    ensures forall i, j :: 0 <= i < j < |r| && r[i].priority.None? ==> r[j].priority.None?
    ensures forall i, j :: 0 <= i < j < |r| && r[j].priority.Some? ==>
              r[i].priority.Some? && r[i].priority.value >= r[j].priority.value
  {
    ByPriorityIsOrder(rules);
    var order := SortedPositions(|rules|, ByPriority(rules));
    var r := Permuted(rules, order);
    assert forall i, j :: 0 <= i < j < |r| ==> ByPriority(rules)(order[i], order[j]);
    assert multiset(r) == multiset(rules) by {
      PermutedMultiset(rules, order);
    }
    r
  }

  /** `validate_and_process_constraints`: `None` when the sheet has no scope
      column, no limit column or no kept row; otherwise the kept rows'
      rules by descending priority. */
  method ValidateAndProcessConstraints(sheet: Sheet) returns (r: Option<seq<Rule>>)
    ensures !HasScope(sheet.columns) || !HasLimit(sheet.columns) ==> r.None?
    ensures HasScope(sheet.columns) && HasLimit(sheet.columns) ==>
              r == (var rules := ProcessRows(Filled(sheet)); if |rules| == 0 then None else Some(SortRules(rules)))
  {
    if !HasScope(sheet.columns) || !HasLimit(sheet.columns) {
      return None;
    }
    var rows := Filled(sheet);
    var processed: seq<Rule> := [];
    for i := 0 to |rows|
      invariant processed == ProcessRows(rows[..i])
    {
      assert rows[..i + 1][..i] == rows[..i];
      var rule := ProcessRow(rows[i]);
      if rule.Some? {
        processed := processed + [rule.value];
      }
    }
    assert rows[..|rows|] == rows;
    if |processed| == 0 {
      return None;
    }
    r := Some(SortRules(processed));
  }

  // ---------------------------------------------------------------------
  // `apply_advanced_constraints`: scope, target and the greedy walk
  // ---------------------------------------------------------------------

  /** A lane pattern containing '→' matches every lane that contains the
      pattern with its arrows removed; any other pattern must equal the lane.
      A missing lane matches nothing. */
  predicate LaneMatches(pattern: string, lane: Option<string>)
  {
    lane.Some? && if '→' in pattern then Contains(lane.value, Remove(pattern, '→')) else lane.value == pattern
  }

  /** The row lies in the rule's scope: each given scope field must match,
      the category and lane only when the table has those columns. */
  predicate InScope(cols: set<Column>, rule: Rule, r: Shipment)
  {
    (rule.category.Some? && Category in cols ==> r.category == rule.category) &&
    (rule.carrier.Some? ==> r.carrier == rule.carrier) &&
    (rule.lane.Some? && Lane in cols ==> LaneMatches(rule.lane.value, r.lane)) &&
    (rule.weeks.Some? ==> r.week.Some? && r.week.value in rule.weeks.value)
  }

  function OpenTest(cols: set<Column>, rows: seq<Shipment>, rule: Rule, used: set<nat>): nat -> bool
  {
    (j: nat) => j < |rows| && InScope(cols, rule, rows[j]) && j !in used
  }

  /** The rows in the rule's scope that no earlier rule has pinned. */
  function Candidates(cols: set<Column>, rows: seq<Shipment>, rule: Rule, used: set<nat>): (r: seq<nat>)
    ensures NoDup(r)
    ensures forall k :: 0 <= k < |r| ==> r[k] < |rows|
    ensures forall j: nat :: j in r <==> j < |rows| && InScope(cols, rule, rows[j]) && j !in used
  {
    Positions(|rows|, OpenTest(cols, rows, rule, used))
  }

  /** The container counts of the rows at the given positions. */
  function Counts(rows: seq<Shipment>, ps: seq<nat>): (cs: seq<int>)
    requires forall k :: 0 <= k < |ps| ==> ps[k] < |rows|
    ensures |cs| == |ps| && forall k :: 0 <= k < |ps| ==> cs[k] == rows[ps[k]].count
  {
    seq(|ps|, k requires 0 <= k < |ps| => rows[ps[k]].count)
  }

  /** The target: the floored percent share of what is available, else the
      minimum, else everything; then raised to the minimum, lowered to the
      maximum and never above what is available. */
  function AdvancedTarget(rule: Rule, total: int): (t: int)
    ensures t <= total
    ensures rule.maximum.Some? ==> t <= Trunc(rule.maximum.value)
  {
    var base :=
      if rule.percent.Some? then Trunc(total as real * (rule.percent.value / 100.0))
      else if rule.minimum.Some? then Trunc(rule.minimum.value)
      else total;
    var raised := if rule.minimum.Some? then MaxI(base, Trunc(rule.minimum.value)) else base;
    var capped := if rule.maximum.Some? then MinI(raised, Trunc(rule.maximum.value)) else raised;
    MinI(capped, total)
  }

  /** For a validated rule the minimum is honoured as far as the available
      containers allow; a rule without limits takes everything; a bare percent
      takes the floored share. */
  lemma TargetBounds(rule: Rule, total: int)
    requires WellFormed(rule)
    ensures rule.minimum.Some? ==> AdvancedTarget(rule, total) >= MinI(Trunc(rule.minimum.value), total)
    ensures rule.percent.None? && rule.minimum.None? && rule.maximum.None? ==> AdvancedTarget(rule, total) == total
    ensures rule.percent.Some? && rule.minimum.None? && rule.maximum.None? && total >= 0 ==>
              var t := AdvancedTarget(rule, total);
              0 <= t && t as real <= total as real * rule.percent.value / 100.0 < t as real + 1.0
  {
    if rule.minimum.Some? && rule.maximum.Some? {
      TruncMonotone(rule.minimum.value, rule.maximum.value);
    }
    if rule.percent.Some? && total >= 0 {
      var q := rule.percent.value / 100.0;
      var share := total as real * q;
      assert share == total as real * rule.percent.value / 100.0;
      assert 0.0 <= q <= 1.0;
      MulBounds(total as real, q);
    }
  }

  /** What the walk takes from each row in walking order: while the target
      is not met, the row's count up to what is still missing; nothing from a
      row without containers or once the target is met. */
  function Greedy(counts: seq<int>, target: int): (takes: seq<int>)
    ensures |takes| == |counts|
    ensures forall k :: 0 <= k < |takes| ==> 0 <= takes[k] && (takes[k] > 0 ==> takes[k] <= counts[k])
    ensures SumInt(takes) <= MaxI(target, 0)
  {
    if |counts| == 0 then []
    else
      var prev := Greedy(counts[..|counts| - 1], target);
      var acc := SumInt(prev);
      var c := counts[|counts| - 1];
      var takes := prev + [if acc < target && c > 0 then MinI(c, target - acc) else 0];
      assert takes[..|prev|] == prev;
      takes
  }

  /** Falling short of the target means every row with containers was taken whole. */
  lemma {:induction false} GreedyComplete(counts: seq<int>, target: int)
    ensures SumInt(Greedy(counts, target)) < target ==>
              forall k :: 0 <= k < |counts| && counts[k] > 0 ==> Greedy(counts, target)[k] == counts[k]
  {
    if |counts| > 0 {
      var init := counts[..|counts| - 1];
      var g := Greedy(counts, target);
      GreedyComplete(init, target);
      assert g[..|init|] == Greedy(init, target);
      if SumInt(g) < target {
        forall k | 0 <= k < |counts| && counts[k] > 0 ensures g[k] == counts[k] {
          if k < |init| {
            assert init[k] == counts[k];
          }
        }
      }
    }
  }

  /** Once the target is met the walk takes nothing more. */
  lemma {:induction false} GreedyStops(counts: seq<int>, n: nat, target: int)
    requires n <= |counts| && SumInt(Greedy(counts[..n], target)) >= target
    ensures Greedy(counts, target) == Greedy(counts[..n], target) + Zeros(|counts| - n)
    decreases |counts|
  {
    if n < |counts| {
      var init := counts[..|counts| - 1];
      assert init[..n] == counts[..n];
      var met := Greedy(counts[..n], target);
      GreedyStops(init, n, target);
      PaddedSum(met, |init| - n);
      GreedyAfterTarget(counts, target);
      PaddedSnoc(met, |init| - n);
    } else {
      assert counts[..n] == counts;
    }
  }

  lemma PaddedSum(s: seq<int>, m: nat)
    ensures SumInt(s + Zeros(m)) == SumInt(s)
  {
    ZerosSum(m);
    SumIntAppend(s, Zeros(m));
  }

  lemma PaddedSnoc(s: seq<int>, m: nat)
    ensures s + Zeros(m) + [0] == s + Zeros(m + 1)
  {
  }

  lemma GreedyAfterTarget(counts: seq<int>, target: int)
    requires |counts| > 0 && SumInt(Greedy(counts[..|counts| - 1], target)) >= target
    ensures Greedy(counts, target) == Greedy(counts[..|counts| - 1], target) + [0]
  {
  }

  function Zeros(n: nat): (z: seq<int>)
    ensures |z| == n && forall k :: 0 <= k < n ==> z[k] == 0
  {
    seq(n, k => 0)
  }

  lemma {:induction false} ZerosSum(n: nat)
    ensures SumInt(Zeros(n)) == 0
  {
    if n > 0 {
      ZerosSum(n - 1);
      assert Zeros(n)[..n - 1] == Zeros(n - 1);
    }
  }

  /** The constraint columns stamped on a pinned record. */
  datatype Stamp = Stamp(id: nat, priority: int, applied: string, notes: string)

  /** A constrained record: the source row (by its index) with the count it
      gives to the constraint. */
  datatype Pinned = Pinned(source: nat, row: Shipment, stamp: Stamp)

  /** `Constraint_Notes`: the category, carrier and notes that are given, joined by " | ". */
  function NotesText(rule: Rule): (s: string)
    ensures rule.category.None? && rule.carrier.None? && rule.notes.None? ==> s == ""
    ensures rule.category.Some? ==> StartsWith(s, "Cat:" + rule.category.value)
  {
    var parts := (if rule.category.Some? then ["Cat:" + rule.category.value] else []) +
                 (if rule.carrier.Some? then ["Carrier:" + rule.carrier.value] else []) +
                 (if rule.notes.Some? then [rule.notes.value] else []);
    assert rule.category.Some? ==> parts[0] == "Cat:" + rule.category.value;
    JoinStartsWith(" | ", parts);
    Join(" | ", parts)
  }

  lemma JoinStartsWith(sep: string, xs: seq<string>)
    ensures |xs| > 0 ==> StartsWith(Join(sep, xs), xs[0])
  {
    if |xs| > 1 {
      assert (xs[0] + sep + Join(sep, xs[1..]))[..|xs[0]|] == xs[0];
    }
  }

  function StampOf(rule: Rule, id: nat, priority: int): Stamp
  {
    Stamp(id, priority, "Priority " + IntToString(priority), NotesText(rule))
  }

  function Rows(ps: seq<Pinned>): (rs: seq<Shipment>)
    ensures |rs| == |ps| && forall m :: 0 <= m < |ps| ==> rs[m] == ps[m].row
  {
    seq(|ps|, m requires 0 <= m < |ps| => ps[m].row)
  }

  /** The constrained records so far: each is a copy of a distinct table row
      holding part or all of that row's count, and `used` holds exactly their
      rows. */
  ghost predicate Ledger(rows: seq<Shipment>, pins: seq<Pinned>, used: set<nat>)
  {
    (forall m :: 0 <= m < |pins| ==>
       pins[m].source < |rows| && 0 < pins[m].row.count <= rows[pins[m].source].count &&
       pins[m].row == rows[pins[m].source].(count := pins[m].row.count)) &&
    (forall m, m' :: 0 <= m < m' < |pins| ==> pins[m].source != pins[m'].source) &&
    used == set m | 0 <= m < |pins| :: pins[m].source
  }

  lemma LedgerSnoc(rows: seq<Shipment>, pins: seq<Pinned>, used: set<nat>, p: Pinned)
    requires Ledger(rows, pins, used)
    requires p.source < |rows| && p.source !in used
    requires 0 < p.row.count <= rows[p.source].count && p.row == rows[p.source].(count := p.row.count)
    ensures Ledger(rows, pins + [p], used + {p.source})
  {
    var ps := pins + [p];
    assert forall m :: 0 <= m < |pins| ==> ps[m] == pins[m];
    assert (set m | 0 <= m < |ps| :: ps[m].source) == used + {p.source} by {
      forall x | x in used ensures x in (set m | 0 <= m < |ps| :: ps[m].source) {
        var m :| 0 <= m < |pins| && pins[m].source == x;
        assert ps[m].source == x;
      }
      assert ps[|pins|].source == p.source;
    }
  }

  /** A row as the walk meets it: its position in the table and its content. */
  datatype Entry = Entry(source: nat, row: Shipment)

  /** The rows at `order`, in that order, with their positions. */
  function Entries(rows: seq<Shipment>, order: seq<nat>): (q: seq<Entry>)
    requires forall k :: 0 <= k < |order| ==> order[k] < |rows|
    ensures |q| == |order| && forall k :: 0 <= k < |order| ==> q[k] == Entry(order[k], rows[order[k]])
  {
    seq(|order|, k requires 0 <= k < |order| => Entry(order[k], rows[order[k]]))
  }

  function QueueCounts(q: seq<Entry>): (cs: seq<int>)
    ensures |cs| == |q| && forall k :: 0 <= k < |q| ==> cs[k] == q[k].row.count
  {
    seq(|q|, k requires 0 <= k < |q| => q[k].row.count)
  }

  /** Where the walk of one constraint stands: what it took from each row so
      far, the containers given in all, the records it created and the rows
      it took from. */
  datatype Walk = Walk(takes: seq<int>, given: int, pins: seq<Pinned>, picked: set<nat>)

  /** One row of the walk: the row gives what is still missing of the
      target, up to its count, and if that is positive it becomes a record
      stamped with the constraint. */
  function Advance(w: Walk, e: Entry, target: int, stamp: Stamp): Walk
  {
    var take := MinI(e.row.count, target - w.given);
    if take > 0 then
      Walk(w.takes + [take], w.given + take, w.pins + [Pinned(e.source, e.row.(count := take), stamp)], w.picked + {e.source})
    else
      Walk(w.takes + [0], w.given, w.pins, w.picked)
  }

  /** The walk over a queue of rows, in queue order. */
  function WalkOf(q: seq<Entry>, target: int, stamp: Stamp): (w: Walk)
    ensures |w.takes| == |q| && |w.pins| <= |q|
  {
    if |q| == 0 then Walk([], 0, [], {})
    else Advance(WalkOf(q[..|q| - 1], target, stamp), q[|q| - 1], target, stamp)
  }

  /** The containers given are the sum of the takes. */
  lemma {:induction false} WalkGiven(q: seq<Entry>, target: int, stamp: Stamp)
    ensures WalkOf(q, target, stamp).given == SumInt(WalkOf(q, target, stamp).takes)
  {
    if |q| > 0 {
      var n := |q| - 1;
      WalkGiven(q[..n], target, stamp);
      assert WalkOf(q, target, stamp).takes[..n] == WalkOf(q[..n], target, stamp).takes;
    }
  }

  /** The walk takes from each row exactly what `Greedy` prescribes for the rows' counts. */
  lemma {:induction false} WalkTakes(q: seq<Entry>, target: int, stamp: Stamp)
    ensures WalkOf(q, target, stamp).takes == Greedy(QueueCounts(q), target)
  {
    if |q| > 0 {
      var n := |q| - 1;
      WalkTakes(q[..n], target, stamp);
      WalkGiven(q[..n], target, stamp);
      assert QueueCounts(q)[..n] == QueueCounts(q[..n]);
    }
  }

  /** The walk takes only from the rows of its queue. */
  lemma {:induction false} WalkPicksFromQueue(q: seq<Entry>, target: int, stamp: Stamp)
    ensures forall x :: x in WalkOf(q, target, stamp).picked ==> exists k :: 0 <= k < |q| && q[k].source == x
  {
    if |q| > 0 {
      var n := |q| - 1;
      WalkPicksFromQueue(q[..n], target, stamp);
      forall x | x in WalkOf(q, target, stamp).picked ensures exists k :: 0 <= k < |q| && q[k].source == x {
        if x in WalkOf(q[..n], target, stamp).picked {
          var k :| 0 <= k < n && q[..n][k].source == x;
          assert q[k].source == x;
        } else {
          assert q[n].source == x;
        }
      }
    }
  }

  /** Once the target is met the remaining rows add nothing. */
  lemma {:induction false} WalkIdle(q: seq<Entry>, target: int, stamp: Stamp, k: nat)
    requires k <= |q| && (k < |q| ==> WalkOf(q[..k], target, stamp).given >= target)
    ensures var w := WalkOf(q[..k], target, stamp);
            var w' := WalkOf(q, target, stamp);
            w'.pins == w.pins && w'.picked == w.picked && w'.given == w.given
    decreases |q|
  {
    if k < |q| {
      var n := |q| - 1;
      assert q[..n][..k] == q[..k];
      WalkIdle(q[..n], target, stamp, k);
    } else {
      assert q[..k] == q;
    }
  }

  /** The state of the walk after the first `k` rows of its queue, on top of
      the records and taken rows of the constraints before it. */
  ghost predicate Walked(rows: seq<Shipment>, q: seq<Entry>, target: int, stamp: Stamp, pins: seq<Pinned>, used: set<nat>,
                         k: nat, pins': seq<Pinned>, used': set<nat>, given: int, records: nat)
    requires k <= |q|
  {
    var w := WalkOf(q[..k], target, stamp);
    pins' == pins + w.pins && used' == used + w.picked && given == w.given && records == |w.pins| &&
    Ledger(rows, pins', used')
  }

  /** The queue of a constraint: distinct table rows not taken before, each with its own content. */
  ghost predicate Queue(rows: seq<Shipment>, q: seq<Entry>, used: set<nat>)
  {
    (forall k :: 0 <= k < |q| ==> q[k].source < |rows| && q[k].row == rows[q[k].source] && q[k].source !in used) &&
    (forall k, k' :: 0 <= k < k' < |q| ==> q[k].source != q[k'].source)
  }

  /** One row of the walk. */
  method WalkNext(rows: seq<Shipment>, q: seq<Entry>, target: int, stamp: Stamp, ghost pins: seq<Pinned>,
                  ghost used: set<nat>, k: nat, pins': seq<Pinned>, used': set<nat>, given: int, records: nat)
    returns (pins'': seq<Pinned>, used'': set<nat>, given': int, records': nat)
    requires Queue(rows, q, used) && k < |q|
    requires Walked(rows, q, target, stamp, pins, used, k, pins', used', given, records)
    ensures Walked(rows, q, target, stamp, pins, used, k + 1, pins'', used'', given', records')
  {
    assert q[..k + 1][..k] == q[..k];
    assert q[k].source !in WalkOf(q[..k], target, stamp).picked by {
      WalkPicksFromQueue(q[..k], target, stamp);
    }
    var e := q[k];
    var take := MinI(e.row.count, target - given);
    pins'', used'', given', records' := pins', used', given, records;
    if take > 0 {
      var p := Pinned(e.source, e.row.(count := take), stamp);
      LedgerSnoc(rows, pins', used', p);
      pins'', used'', given', records' := pins' + [p], used' + {e.source}, given + take, records + 1;
    }
  }

  /** The walk of one constraint over its queue of rows (in week order):
      each row gives what is still missing of the target, and the walk ends
      once the target is met. */
  method PinRows(rows: seq<Shipment>, q: seq<Entry>, target: int, stamp: Stamp, pins: seq<Pinned>, used: set<nat>)
    returns (pins': seq<Pinned>, used': set<nat>, given: int, records: nat)
    requires Queue(rows, q, used) && Ledger(rows, pins, used)
    ensures var w := WalkOf(q, target, stamp);
            pins' == pins + w.pins && used' == used + w.picked && given == w.given && records == |w.pins|
    ensures Ledger(rows, pins', used')
  {
    pins', used', given, records := pins, used, 0, 0;
    var k := 0;
    assert q[..0] == [];
    while k < |q| && given < target
      invariant k <= |q|
      invariant Walked(rows, q, target, stamp, pins, used, k, pins', used', given, records)
    {
      pins', used', given, records := WalkNext(rows, q, target, stamp, pins, used, k, pins', used', given, records);
      k := k + 1;
    }
    WalkIdle(q, target, stamp, k);
  }

  /** One row of the walk keeps the ledger when the row is a table row not taken before. */
  lemma LedgerAdvance(rows: seq<Shipment>, pins: seq<Pinned>, used: set<nat>, w: Walk, e: Entry, target: int, stamp: Stamp)
    requires Ledger(rows, pins + w.pins, used + w.picked)
    requires e.source < |rows| && e.row == rows[e.source] && e.source !in used + w.picked
    ensures var w' := Advance(w, e, target, stamp);
            Ledger(rows, pins + w'.pins, used + w'.picked)
  {
    var take := MinI(e.row.count, target - w.given);
    if take > 0 {
      var p := Pinned(e.source, e.row.(count := take), stamp);
      LedgerSnoc(rows, pins + w.pins, used + w.picked, p);
      assert pins + w.pins + [p] == pins + (w.pins + [p]);
    }
  }

  /** The walk keeps the ledger: its records are parts of distinct rows that
      no earlier constraint took. */
  lemma {:induction false} WalkLedger(rows: seq<Shipment>, q: seq<Entry>, target: int, stamp: Stamp,
                                      pins: seq<Pinned>, used: set<nat>)
    requires Queue(rows, q, used) && Ledger(rows, pins, used)
    ensures var w := WalkOf(q, target, stamp);
            Ledger(rows, pins + w.pins, used + w.picked)
  {
    if |q| > 0 {
      var n := |q| - 1;
      var w := WalkOf(q[..n], target, stamp);
      assert Ledger(rows, pins + w.pins, used + w.picked) by {
        assert Queue(rows, q[..n], used);
        WalkLedger(rows, q[..n], target, stamp, pins, used);
      }
      assert q[n].source !in w.picked by {
        WalkPicksFromQueue(q[..n], target, stamp);
      }
      LedgerAdvance(rows, pins, used, w, q[n], target, stamp);
    } else {
      assert pins + [] == pins;
    }
  }

  // ---------------------------------------------------------------------
  // `apply_advanced_constraints`: one rule, then all of them
  // ---------------------------------------------------------------------

  /** The rows a rule walks over: its candidates sorted by week, rows without
      a week last. */
  function RuleQueue(cols: set<Column>, rows: seq<Shipment>, rule: Rule, used: set<nat>): (q: seq<Entry>)
    ensures Queue(rows, q, used)
    ensures |q| == |Candidates(cols, rows, rule, used)|
    ensures forall k :: 0 <= k < |q| ==> InScope(cols, rule, q[k].row)
    ensures forall k, k' :: 0 <= k < k' < |q| ==> CP.ByWeek(rows)(q[k].source, q[k'].source)
  {
    var elig := Candidates(cols, rows, rule, used);
    CP.ByWeekIsOrder(rows);
    var order := SortPositions(elig, CP.ByWeek(rows), |rows|);
    Entries(rows, order)
  }

  datatype Status = NoMatch | Applied

  /** A line of the constraint summary; `target` is absent for a rule that matched nothing. */
  datatype Outcome = Outcome(id: nat, priority: int, status: Status, containers: int, records: nat, target: Option<int>)

  /** What one rule does: its walk and its summary line. */
  datatype Effect = Effect(walk: Walk, outcome: Outcome)

  /** A rule numbered `id`, applied after earlier rules took the rows in
      `used`: a rule without candidates reports that it matched nothing;
      otherwise it walks its queue toward its target, computed from what its
      candidates hold. */
  function RuleEffect(cols: set<Column>, rows: seq<Shipment>, rule: Rule, id: nat, used: set<nat>): (e: Effect)
    requires rule.priority.Some?
    ensures e.outcome.id == id && e.outcome.priority == Trunc(rule.priority.value)
    ensures e.outcome.status == NoMatch <==> |Candidates(cols, rows, rule, used)| == 0
    ensures e.outcome.status == NoMatch ==>
              e.walk == Walk([], 0, [], {}) && e.outcome.containers == 0 && e.outcome.records == 0 && e.outcome.target.None?
    ensures e.outcome.status == Applied ==>
              e.outcome.target.Some? && e.outcome.containers == e.walk.given && e.outcome.records == |e.walk.pins| &&
              0 <= e.walk.given <= MaxI(e.outcome.target.value, 0)
  {
    var elig := Candidates(cols, rows, rule, used);
    var priority := Trunc(rule.priority.value);
    if |elig| == 0 then
      Effect(Walk([], 0, [], {}), Outcome(id, priority, NoMatch, 0, 0, None))
    else
      var target := AdvancedTarget(rule, SumInt(Counts(rows, elig)));
      var q := RuleQueue(cols, rows, rule, used);
      var w := WalkOf(q, target, StampOf(rule, id, priority));
      WalkGiven(q, target, StampOf(rule, id, priority));
      WalkTakes(q, target, StampOf(rule, id, priority));
      SumIntNonNegative(w.takes);
      Effect(w, Outcome(id, priority, Applied, w.given, |w.pins|, Some(target)))
  }

  /** A rule falls short of its target only when it took every candidate row
      with containers whole. */
  lemma RuleShortfall(cols: set<Column>, rows: seq<Shipment>, rule: Rule, id: nat, used: set<nat>)
    requires rule.priority.Some?
    ensures var e := RuleEffect(cols, rows, rule, id, used);
            var q := RuleQueue(cols, rows, rule, used);
            e.outcome.status == Applied && e.outcome.containers < e.outcome.target.value ==>
              forall k :: 0 <= k < |q| && q[k].row.count > 0 ==> e.walk.takes[k] == q[k].row.count
  {
    var e := RuleEffect(cols, rows, rule, id, used);
    if e.outcome.status == Applied {
      var q := RuleQueue(cols, rows, rule, used);
      var target := e.outcome.target.value;
      var stamp := StampOf(rule, id, e.outcome.priority);
      WalkGiven(q, target, stamp);
      WalkTakes(q, target, stamp);
      GreedyComplete(QueueCounts(q), target);
    }
  }

  /** One iteration of the constraint loop of `apply_advanced_constraints`. */
  method ApplyRule(cols: set<Column>, rows: seq<Shipment>, rule: Rule, id: nat, pins: seq<Pinned>, used: set<nat>)
    returns (pins': seq<Pinned>, used': set<nat>, o: Outcome)
    requires rule.priority.Some? && Ledger(rows, pins, used)
    ensures var e := RuleEffect(cols, rows, rule, id, used);
            pins' == pins + e.walk.pins && used' == used + e.walk.picked && o == e.outcome
    ensures Ledger(rows, pins', used')
  {
    var elig := Candidates(cols, rows, rule, used);
    var priority := Trunc(rule.priority.value);
    if |elig| == 0 {
      assert pins + [] == pins && used + {} == used;
      return pins, used, Outcome(id, priority, NoMatch, 0, 0, None);
    }
    var target := AdvancedTarget(rule, SumInt(Counts(rows, elig)));
    var q := RuleQueue(cols, rows, rule, used);
    var given, records;
    pins', used', given, records := PinRows(rows, q, target, StampOf(rule, id, priority), pins, used);
    o := Outcome(id, priority, Applied, given, records, Some(target));
  }

  /** The records, the taken rows and the summary after a run of rules. */
  datatype Plan = Plan(pins: seq<Pinned>, used: set<nat>, summary: seq<Outcome>)

  /** The rules applied one after the other, numbered from 1 in their order. */
  function PlanOf(cols: set<Column>, rows: seq<Shipment>, rules: seq<Rule>): (p: Plan)
    requires forall k :: 0 <= k < |rules| ==> rules[k].priority.Some?
    ensures |p.summary| == |rules|
  {
    if |rules| == 0 then Plan([], {}, [])
    else
      var n := |rules| - 1;
      var p := PlanOf(cols, rows, rules[..n]);
      var e := RuleEffect(cols, rows, rules[n], n + 1, p.used);
      Plan(p.pins + e.walk.pins, p.used + e.walk.picked, p.summary + [e.outcome])
  }

  /** Every run of rules keeps the ledger: no table row is pinned twice, and
      each record is part of the row it came from. */
  lemma {:induction false} PlanLedger(cols: set<Column>, rows: seq<Shipment>, rules: seq<Rule>)
    requires forall k :: 0 <= k < |rules| ==> rules[k].priority.Some?
    ensures var p := PlanOf(cols, rows, rules);
            Ledger(rows, p.pins, p.used)
  {
    if |rules| > 0 {
      var n := |rules| - 1;
      PlanLedger(cols, rows, rules[..n]);
      var p := PlanOf(cols, rows, rules[..n]);
      WalkLedgerOf(cols, rows, rules[n], n + 1, p.pins, p.used);
    }
  }

  /** The summary has one line per rule, the k-th numbered k + 1, with the rule's truncated priority. */
  lemma {:induction false} PlanSummary(cols: set<Column>, rows: seq<Shipment>, rules: seq<Rule>)
    requires forall k :: 0 <= k < |rules| ==> rules[k].priority.Some?
    ensures var p := PlanOf(cols, rows, rules);
            forall k :: 0 <= k < |rules| ==> p.summary[k].id == k + 1 && p.summary[k].priority == Trunc(rules[k].priority.value)
  {
    if |rules| > 0 {
      var n := |rules| - 1;
      PlanSummary(cols, rows, rules[..n]);
      var p0 := PlanOf(cols, rows, rules[..n]);
      var o := RuleEffect(cols, rows, rules[n], n + 1, p0.used).outcome;
      var p := PlanOf(cols, rows, rules);
      assert p.summary == p0.summary + [o];
      forall k | 0 <= k < |rules|
        ensures p.summary[k].id == k + 1 && p.summary[k].priority == Trunc(rules[k].priority.value)
      {
        if k < n {
          assert rules[..n][k] == rules[k] && p.summary[k] == p0.summary[k];
        }
      }
    }
  }

  lemma WalkLedgerOf(cols: set<Column>, rows: seq<Shipment>, rule: Rule, id: nat, pins: seq<Pinned>, used: set<nat>)
    requires rule.priority.Some? && Ledger(rows, pins, used)
    ensures var e := RuleEffect(cols, rows, rule, id, used);
            Ledger(rows, pins + e.walk.pins, used + e.walk.picked)
  {
    var e := RuleEffect(cols, rows, rule, id, used);
    if e.outcome.status == NoMatch {
      assert pins + [] == pins && used + {} == used;
    } else {
      var elig := Candidates(cols, rows, rule, used);
      var target := AdvancedTarget(rule, SumInt(Counts(rows, elig)));
      WalkLedger(rows, RuleQueue(cols, rows, rule, used), target, StampOf(rule, id, Trunc(rule.priority.value)), pins, used);
    }
  }

  /** The table rows no rule took, in table order. */
  function KeptRows(rows: seq<Shipment>, used: set<nat>): (r: seq<Shipment>)
    ensures |r| <= |rows|
  {
    if |rows| == 0 then []
    else
      var n := |rows| - 1;
      KeptRows(rows[..n], used) + (if n in used then [] else [rows[n]])
  }

  /** Sorting keeps every rule, so a priority score on every rule survives it. */
  lemma SortRulesPriorities(rules: seq<Rule>)
    requires forall k :: 0 <= k < |rules| ==> rules[k].priority.Some?
    ensures forall k :: 0 <= k < |SortRules(rules)| ==> SortRules(rules)[k].priority.Some?
  {
    var sorted := SortRules(rules);
    forall k | 0 <= k < |sorted| ensures sorted[k].priority.Some? {
      assert sorted[k] in multiset(rules);
    }
  }

  /** One iteration of the rule loop of `apply_advanced_constraints`: the rule at `k` is numbered `k + 1`. */
  method ApplyNext(cols: set<Column>, rows: seq<Shipment>, rules: seq<Rule>, k: nat,
                   constrained: seq<Pinned>, used: set<nat>, summary: seq<Outcome>)
    returns (constrained': seq<Pinned>, used': set<nat>, summary': seq<Outcome>)
    requires k < |rules| && forall j :: 0 <= j < |rules| ==> rules[j].priority.Some?
    requires PlanOf(cols, rows, rules[..k]) == Plan(constrained, used, summary)
    ensures PlanOf(cols, rows, rules[..k + 1]) == Plan(constrained', used', summary')
  {
    assert rules[..k + 1][..k] == rules[..k];
    PlanLedger(cols, rows, rules[..k]);
    var o;
    constrained', used', o := ApplyRule(cols, rows, rules[k], k + 1, constrained, used);
    summary' := summary + [o];
  }

  /** `apply_advanced_constraints`: when advanced constraints are switched
      on and enabled and there are rules, the rules by descending priority
      pin containers; the constrained records, the rows no rule took and the
      summary come out. Otherwise nothing is constrained. A rule whose
      priority did not parse is NaN, and `int()` of it raises once the loop
      reaches it. */
  method ApplyAdvancedConstraints(t: Table, useAdvanced: bool, enabled: bool, rules: seq<Rule>)
    returns (r: Result<(seq<Pinned>, seq<Shipment>, seq<Outcome>)>)
    ensures r.Failure? <==>
              useAdvanced && enabled && |rules| > 0 && exists k :: 0 <= k < |rules| && rules[k].priority.None?
    ensures r.Failure? ==> r.error == NAN_TO_INT
    ensures !useAdvanced || !enabled || |rules| == 0 ==> r == Success(([], t.rows, []))
    ensures useAdvanced && enabled && |rules| > 0 && r.Success? ==>
              var p := PlanOf(t.columns, t.rows, SortRules(rules));
              r.value == (p.pins, KeptRows(t.rows, p.used), p.summary)
  {
    if !useAdvanced || !enabled || |rules| == 0 {
      return Success(([], t.rows, []));
    }
    if exists k :: 0 <= k < |rules| && rules[k].priority.None? {
      return Failure(NAN_TO_INT);
    }
    var sorted := SortRules(rules);
    SortRulesPriorities(rules);
    var constrained, used, summary := ApplyRules(t.columns, t.rows, sorted);
    r := Success((constrained, KeptRows(t.rows, used), summary));
  }

  /** The message of the `ValueError` that `int()` of a NaN raises. */
  const NAN_TO_INT := "cannot convert float NaN to integer"

  /** The rule loop of `apply_advanced_constraints` over rules already in order. */
  method ApplyRules(cols: set<Column>, rows: seq<Shipment>, rules: seq<Rule>)
    returns (constrained: seq<Pinned>, used: set<nat>, summary: seq<Outcome>)
    requires forall k :: 0 <= k < |rules| ==> rules[k].priority.Some?
    ensures PlanOf(cols, rows, rules) == Plan(constrained, used, summary)
  {
    constrained, used, summary := [], {}, [];
    for k := 0 to |rules|
      invariant PlanOf(cols, rows, rules[..k]) == Plan(constrained, used, summary)
    {
      constrained, used, summary := ApplyNext(cols, rows, rules, k, constrained, used, summary);
    }
    assert rules[..|rules|] == rules;
  }

  // ---------------------------------------------------------------------
  // The container balance
  // ---------------------------------------------------------------------

  /** The containers of partly pinned rows that are neither in their record
      nor among the kept rows: for each record, its row's count less its own. */
  function Dropped(rows: seq<Shipment>, pins: seq<Pinned>): int
    requires forall m :: 0 <= m < |pins| ==> pins[m].source < |rows|
  {
    if |pins| == 0 then 0
    else
      var n := |pins| - 1;
      Dropped(rows, pins[..n]) + rows[pins[n].source].count - pins[n].row.count
  }

  lemma {:induction false} KeptRowsIgnore(rows: seq<Shipment>, used: set<nat>, s: nat)
    requires s >= |rows|
    ensures KeptRows(rows, used + {s}) == KeptRows(rows, used)
  {
    if |rows| > 0 {
      KeptRowsIgnore(rows[..|rows| - 1], used, s);
    }
  }

  /** Taking one more row removes exactly its containers from the kept rows. */
  lemma {:induction false} KeptRowsTake(rows: seq<Shipment>, used: set<nat>, s: nat)
    requires s < |rows| && s !in used
    ensures SumCounts(KeptRows(rows, used)) == SumCounts(KeptRows(rows, used + {s})) + rows[s].count
  {
    var n := |rows| - 1;
    var front := rows[..n];
    assert rows[..n] == front;
    if s < n {
      var last := if n in used then [] else [rows[n]];
      assert KeptRows(rows, used) == KeptRows(front, used) + last;
      assert KeptRows(rows, used + {s}) == KeptRows(front, used + {s}) + last;
      SumCountsAppend(KeptRows(front, used), last);
      SumCountsAppend(KeptRows(front, used + {s}), last);
      KeptRowsTake(front, used, s);
      assert front[s] == rows[s];
    } else {
      KeptRowsIgnore(front, used, s);
      assert KeptRows(rows, used) == KeptRows(front, used) + [rows[n]];
      assert KeptRows(rows, used + {s}) == KeptRows(front, used) + [];
      assert KeptRows(front, used) + [] == KeptRows(front, used);
      SumCountsAppend(KeptRows(front, used), [rows[n]]);
      assert SumCounts([rows[n]]) == rows[n].count by {
        assert [rows[n]][..0] == [];
      }
    }
  }

  /** The ledger without its last record. */
  lemma LedgerInit(rows: seq<Shipment>, pins: seq<Pinned>, used: set<nat>)
    requires Ledger(rows, pins, used) && |pins| > 0
    ensures var n := |pins| - 1;
            pins[n].source in used && pins[n].source !in used - {pins[n].source} &&
            Ledger(rows, pins[..n], used - {pins[n].source})
  {
    var n := |pins| - 1;
    var front := pins[..n];
    assert pins[n].source in used;
    assert (set m | 0 <= m < |front| :: front[m].source) == used - {pins[n].source} by {
      forall x | x in used - {pins[n].source} ensures x in (set m | 0 <= m < |front| :: front[m].source) {
        var m :| 0 <= m < |pins| && pins[m].source == x;
        assert front[m] == pins[m];
      }
    }
  }

  /** Where every container of the table ends up: in a record, in a kept row
      or dropped with the rest of a partly pinned row. */
  lemma {:induction false} AdvancedBalance(rows: seq<Shipment>, pins: seq<Pinned>, used: set<nat>)
    requires Ledger(rows, pins, used)
    ensures SumCounts(rows) == SumCounts(Rows(pins)) + SumCounts(KeptRows(rows, used)) + Dropped(rows, pins)
  {
    if |pins| == 0 {
      KeptRowsNone(rows, used);
    } else {
      var n := |pins| - 1;
      var s := pins[n].source;
      LedgerInit(rows, pins, used);
      AdvancedBalance(rows, pins[..n], used - {s});
      KeptRowsTake(rows, used - {s}, s);
      assert used - {s} + {s} == used;
      assert Rows(pins)[..n] == Rows(pins[..n]);
    }
  }

  lemma {:induction false} KeptRowsNone(rows: seq<Shipment>, used: set<nat>)
    requires used == {}
    ensures KeptRows(rows, used) == rows
  {
    if |rows| > 0 {
      KeptRowsNone(rows[..|rows| - 1], used);
    }
  }

  /** Nothing is dropped exactly when every record holds its whole row. */
  lemma {:induction false} DroppedZero(rows: seq<Shipment>, pins: seq<Pinned>, used: set<nat>)
    requires Ledger(rows, pins, used)
    ensures Dropped(rows, pins) >= 0
    ensures Dropped(rows, pins) == 0 <==> forall m :: 0 <= m < |pins| ==> pins[m].row == rows[pins[m].source]
  {
    if |pins| > 0 {
      var n := |pins| - 1;
      LedgerInit(rows, pins, used);
      DroppedZero(rows, pins[..n], used - {pins[n].source});
      if forall m :: 0 <= m < |pins| ==> pins[m].row == rows[pins[m].source] {
        assert forall m :: 0 <= m < n ==> pins[..n][m] == pins[m];
      }
    }
  }

  // ---------------------------------------------------------------------
  // The rest of a partly pinned row
  // ---------------------------------------------------------------------

  /** A table row of ten containers with nothing else filled in. */
  function TenContainers(): Shipment
  {
    Shipment(None, None, None, None, None, None, None, Some(1), None, None, 10, None, None, None, None, None, None, None, None)
  }

  /** As written, a walk that takes part of a row removes the whole row from
      the unconstrained data: a rule whose target is four containers walks a
      row of ten, and four come out constrained and none unconstrained. */
  lemma PartialRowDropped()
    ensures var rows := [TenContainers()];
            var w := WalkOf([Entry(0, TenContainers())], 4, Stamp(1, 50, "Priority 50", ""));
            SumCounts(rows) == 10 && SumCounts(Rows(w.pins)) == 4 && KeptRows(rows, w.picked) == []
  {
    var rows := [TenContainers()];
    var q := [Entry(0, TenContainers())];
    var w := WalkOf(q, 4, Stamp(1, 50, "Priority 50", ""));
    assert q[..0] == [];
    assert w.pins == [Pinned(0, TenContainers().(count := 4), Stamp(1, 50, "Priority 50", ""))] && w.picked == {0};
    assert Rows(w.pins) == [TenContainers().(count := 4)];
    assert rows[..0] == [] && Rows(w.pins)[..0] == [];
  }

  /** What the rows partly taken by a record still hold: the row with the
      rest of its count, for each record holding less than its row. */
  function Leftovers(rows: seq<Shipment>, pins: seq<Pinned>): (r: seq<Shipment>)
    requires forall m :: 0 <= m < |pins| ==> pins[m].source < |rows|
    ensures |r| <= |pins|
  {
    if |pins| == 0 then []
    else
      var n := |pins| - 1;
      var whole := rows[pins[n].source];
      var rest := whole.count - pins[n].row.count;
      Leftovers(rows, pins[..n]) + (if rest > 0 then [whole.(count := rest)] else [])
  }

  /** The unconstrained data as evidently intended: the rows no rule touched
      and the rest of every partly taken row. */
  function UnconstrainedRows(rows: seq<Shipment>, pins: seq<Pinned>, used: set<nat>): seq<Shipment>
    requires forall m :: 0 <= m < |pins| ==> pins[m].source < |rows|
  {
    KeptRows(rows, used) + Leftovers(rows, pins)
  }

  lemma {:induction false} LeftoversDropped(rows: seq<Shipment>, pins: seq<Pinned>)
    requires forall m :: 0 <= m < |pins| ==> pins[m].source < |rows| && pins[m].row.count <= rows[pins[m].source].count
    ensures SumCounts(Leftovers(rows, pins)) == Dropped(rows, pins)
  {
    if |pins| > 0 {
      var n := |pins| - 1;
      var front := pins[..n];
      assert forall m :: 0 <= m < n ==> front[m] == pins[m];
      LeftoversDropped(rows, front);
      LeftoverStep(rows, pins);
    }
  }

  /** The last pinned row leaves the rest of its source row, if any. */
  lemma {:induction false} LeftoverStep(rows: seq<Shipment>, pins: seq<Pinned>)
    requires |pins| > 0
    requires forall m :: 0 <= m < |pins| ==> pins[m].source < |rows|
    requires var p := pins[|pins| - 1]; p.row.count <= rows[p.source].count
    ensures var p := pins[|pins| - 1];
      SumCounts(Leftovers(rows, pins)) == SumCounts(Leftovers(rows, pins[..|pins| - 1])) + rows[p.source].count - p.row.count
  {
    var n := |pins| - 1;
    var whole := rows[pins[n].source];
    var rest := whole.count - pins[n].row.count;
    var tail := if rest > 0 then [whole.(count := rest)] else [];
    assert Leftovers(rows, pins) == Leftovers(rows, pins[..n]) + tail;
    SumCountsAppend(Leftovers(rows, pins[..n]), tail);
    if rest > 0 {
      assert SumCounts(tail) == rest by {
        assert tail[..0] == [];
      }
    }
  }

  /** With the rest of partly taken rows kept, every container of the table
      is either constrained or unconstrained. */
  lemma CorrectedBalance(rows: seq<Shipment>, pins: seq<Pinned>, used: set<nat>)
    requires Ledger(rows, pins, used)
    ensures SumCounts(rows) == SumCounts(Rows(pins)) + SumCounts(UnconstrainedRows(rows, pins, used))
  {
    AdvancedBalance(rows, pins, used);
    LeftoversDropped(rows, pins);
    SumCountsAppend(KeptRows(rows, used), Leftovers(rows, pins));
  }
}
