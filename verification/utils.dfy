/** Shared container-ID and grouping helpers (components/utils.py, whose
    ID and facility helpers components/constraints_processor.py repeats). */
module Utils {
  import opened Wrappers
  import opened Seqs
  import opened Text
  import opened Frame

  /** A container ID as the parser yields it: non-empty, trimmed, comma-free. */
  predicate WellFormedId(id: string)
  {
    |id| > 0 && IsStripped(id) && ',' !in id
  }

  /** The trimmed, non-empty pieces, in order. */
  function Pieces(ps: seq<string>): (ids: seq<string>)
    requires forall k :: 0 <= k < |ps| ==> ',' !in ps[k]
    ensures forall k :: 0 <= k < |ids| ==> WellFormedId(ids[k])
    ensures |ids| <= |ps|
  {
    if |ps| == 0 then []
    else
      var t := Strip(ps[0]);
      StripPiece(ps[0]);
      (if t != "" then [t] else []) + Pieces(ps[1..])
  }

  /** A comma-free piece that is not blank strips to a well-formed ID. */
  lemma StripPiece(p: string)
    requires ',' !in p
    ensures Strip(p) != "" ==> WellFormedId(Strip(p))
  {
    StripChars(p);
  }

  /** `parse_container_ids`: NaN or a blank string gives no IDs; otherwise
      the string is split at commas, each piece trimmed, empty pieces dropped. */
  function ParseContainerIds(v: Option<string>): (ids: seq<string>)
    ensures forall k :: 0 <= k < |ids| ==> WellFormedId(ids[k])
    ensures v.None? ==> ids == []
  {
    match v
    case None => []
    case Some(s) => if Strip(s) == "" then [] else Pieces(Split(s, ','))
  }

  /** A blank string holds no IDs. */
  lemma ParseBlank(s: string)
    requires forall k :: 0 <= k < |s| ==> IsSpace(s[k])
    ensures ParseContainerIds(Some(s)) == []
  {
    StripAllSpace(s);
  }

  /** `count_containers`: the number of IDs the parser finds. */
  function CountContainers(v: Option<string>): (n: nat)
    ensures n == |ParseContainerIds(v)|
  {
    match v
    case None => 0
    case Some(s) => if Strip(s) == "" then 0 else |Pieces(Split(s, ','))|
  }

  function NonEmpty(xs: seq<string>): (r: seq<string>)
    ensures forall k :: 0 <= k < |r| ==> r[k] != "" && r[k] in xs
    ensures forall k :: 0 <= k < |xs| && xs[k] != "" ==> xs[k] in r
  {
    if |xs| == 0 then []
    else (if xs[0] != "" then [xs[0]] else []) + NonEmpty(xs[1..])
  }

  lemma NonEmptyOfNonEmpty(xs: seq<string>)
    requires forall k :: 0 <= k < |xs| ==> xs[k] != ""
    ensures NonEmpty(xs) == xs
  {
    if |xs| > 0 {
      NonEmptyOfNonEmpty(xs[1..]);
      assert [xs[0]] + xs[1..] == xs;
    }
  }

  /** `join_container_ids`: the non-empty IDs joined with ", ". */
  function JoinContainerIds(xs: seq<string>): (s: string)
    ensures (forall k :: 0 <= k < |xs| ==> WellFormedId(xs[k])) ==> ParseContainerIds(Some(s)) == xs
  {
    var s := Join(", ", NonEmpty(xs));
    assert (forall k :: 0 <= k < |xs| ==> WellFormedId(xs[k])) ==> ParseContainerIds(Some(s)) == xs by {
      if forall k :: 0 <= k < |xs| ==> WellFormedId(xs[k]) {
        ParseJoin(xs);
      }
    }
    s
  }

  function Padded(xs: seq<string>): (r: seq<string>)
    ensures |r| == |xs|
    ensures forall k :: 0 <= k < |xs| ==> r[k] == " " + xs[k]
    ensures forall k :: 0 <= k < |xs| && ',' !in xs[k] ==> ',' !in r[k]
  {
    if |xs| == 0 then [] else [" " + xs[0]] + Padded(xs[1..])
  }

  lemma {:induction false} SplitJoined(xs: seq<string>)
    requires |xs| >= 1
    requires forall k :: 0 <= k < |xs| ==> ',' !in xs[k]
    ensures Split(Join(", ", xs), ',') == [xs[0]] + Padded(xs[1..])
  {
    if |xs| == 1 {
      SplitNoSep(xs[0], ',');
    } else {
      var rest := xs[1..];
      var j := Join(", ", rest);
      SplitJoined(rest);
      assert Join(", ", xs) == xs[0] + [','] + (" " + j);
      SplitAtFirst(xs[0], ',', " " + j);
      assert (" " + j)[1..] == j;
      assert Split(" " + j, ',') == [" " + rest[0]] + Padded(rest[1..]);
      assert [" " + rest[0]] + Padded(rest[1..]) == Padded(rest);
    }
  }

  lemma {:induction false} PiecesPadded(xs: seq<string>)
    requires forall k :: 0 <= k < |xs| ==> WellFormedId(xs[k])
    ensures forall k :: 0 <= k < |Padded(xs)| ==> ',' !in Padded(xs)[k]
    ensures Pieces(Padded(xs)) == xs
  {
    if |xs| > 0 {
      StripAfterSpaces(" ", xs[0]);
      assert Padded(xs)[1..] == Padded(xs[1..]);
      PiecesPadded(xs[1..]);
      assert [xs[0]] + xs[1..] == xs;
    }
  }

  /** Parsing undoes joining, for IDs that are non-empty, trimmed and comma-free. */
  lemma ParseJoin(xs: seq<string>)
    requires forall k :: 0 <= k < |xs| ==> WellFormedId(xs[k])
    ensures ParseContainerIds(Some(Join(", ", NonEmpty(xs)))) == xs
  {
    NonEmptyOfNonEmpty(xs);
    if |xs| > 0 {
      var j := Join(", ", xs);
      SplitJoined(xs);
      var ps := [xs[0]] + Padded(xs[1..]);
      assert ps[1..] == Padded(xs[1..]);
      StripOfStripped(xs[0]);
      PiecesPadded(xs[1..]);
      assert [xs[0]] + xs[1..] == xs;
    }
  }

  /** A blank last piece adds no ID. */
  lemma {:induction false} PiecesBlankTail(ps: seq<string>)
    requires forall k :: 0 <= k < |ps| ==> ',' !in ps[k]
    ensures Pieces(ps + [""]) == Pieces(ps)
  {
    if |ps| == 0 {
      assert ps + [""] == [""];
      assert Strip("") == "";
    } else {
      assert (ps + [""])[1..] == ps[1..] + [""];
      PiecesBlankTail(ps[1..]);
    }
  }

  /** A trailing comma adds no ID. */
  lemma ParseTrailingComma(xs: seq<string>)
    requires |xs| > 0
    requires forall k :: 0 <= k < |xs| ==> WellFormedId(xs[k])
    ensures ParseContainerIds(Some(JoinContainerIds(xs) + ",")) == xs
  {
    var j := JoinContainerIds(xs);
    assert Strip(j) != "" && Pieces(Split(j, ',')) == xs by {
      assert ParseContainerIds(Some(j)) == xs;
    }
    assert Split(j + ",", ',') == Split(j, ',') + [""] by {
      SplitConcat(j, ',', "");
      assert j + "," == j + [','] + "";
      assert Split("", ',') == [""];
    }
    assert Pieces(Split(j + ",", ',')) == xs by {
      PiecesBlankTail(Split(j, ','));
    }
    assert Strip(j + ",") != "" by {
      if Strip(j + ",") == "" {
        StripBlank(j + ",");
        assert false;
      }
    }
  }

  /** The IDs of several cells, concatenated in order. */
  function AllContainerIds(values: seq<Option<string>>): (ids: seq<string>)
    ensures forall k :: 0 <= k < |ids| ==> WellFormedId(ids[k])
  {
    if |values| == 0 then []
    else AllContainerIds(values[..|values| - 1]) + ParseContainerIds(values[|values| - 1])
  }

  /** Every ID of the list is well-formed. */
  predicate AllWellFormed(xs: seq<string>)
  {
    forall k :: 0 <= k < |xs| ==> WellFormedId(xs[k])
  }

  lemma AllWellFormedAppend(a: seq<string>, b: seq<string>)
    ensures AllWellFormed(a + b) <==> AllWellFormed(a) && AllWellFormed(b)
  {
    if AllWellFormed(a + b) {
      forall k | 0 <= k < |a| ensures WellFormedId(a[k]) {
        assert (a + b)[k] == a[k];
      }
      forall k | 0 <= k < |b| ensures WellFormedId(b[k]) {
        assert (a + b)[|a| + k] == b[k];
      }
    }
  }

  /** Joining well-formed IDs with ", " and parsing them back gives them back. */
  lemma ParseJoined(xs: seq<string>)
    requires forall k :: 0 <= k < |xs| ==> WellFormedId(xs[k])
    ensures ParseContainerIds(Some(Join(", ", xs))) == xs
  {
    NonEmptyOfNonEmpty(xs);
    ParseJoin(xs);
  }

  lemma AllContainerIdsSnoc(values: seq<Option<string>>)
    requires |values| > 0
    ensures AllContainerIds(values) ==
      AllContainerIds(values[..|values| - 1]) + ParseContainerIds(values[|values| - 1])
  {
  }

  /** The IDs of each cell. */
  function CellIds(values: seq<Option<string>>): (ids: seq<seq<string>>)
    ensures |ids| == |values| && forall k :: 0 <= k < |values| ==> ids[k] == ParseContainerIds(values[k])
  {
    Map(values, ParseContainerIds)
  }

  /** The IDs of all cells are the cells' IDs one after another. */
  lemma {:induction false} AllContainerIdsFlatten(values: seq<Option<string>>)
    ensures AllContainerIds(values) == Flatten(CellIds(values))
  {
    if |values| > 0 {
      var p := values[..|values| - 1];
      AllContainerIdsFlatten(p);
      MapSlice(values, ParseContainerIds, 0, |values| - 1);
    }
  }

  /** The IDs of one cell are among the IDs of all cells. */
  lemma IdOfCell(values: seq<Option<string>>, k: nat, x: string)
    requires k < |values| && x in ParseContainerIds(values[k])
    ensures x in AllContainerIds(values)
  {
    AllContainerIdsFlatten(values);
    InFlatten(CellIds(values), k, x);
  }

  /** Each of the IDs of several cells comes from one of them. */
  lemma {:induction false} CellOfId(values: seq<Option<string>>, x: string) returns (k: nat)
    requires x in AllContainerIds(values)
    ensures k < |values| && x in ParseContainerIds(values[k])
  {
    var p := values[..|values| - 1];
    AllContainerIdsSnoc(values);
    if x in AllContainerIds(p) {
      k := CellOfId(p, x);
      assert p[k] == values[k];
    } else {
      k := |values| - 1;
    }
  }

  /** The container-IDs cell of each input row. */
  function ShipmentIdCells(rows: seq<Shipment>): (cells: seq<Option<string>>)
    ensures |cells| == |rows| && forall k :: 0 <= k < |rows| ==> cells[k] == rows[k].ids
  {
    seq(|rows|, k requires 0 <= k < |rows| => rows[k].ids)
  }

  /** A cell without IDs: NaN or blank. */
  predicate BlankCell(cell: Option<string>)
  {
    cell.None? || Strip(cell.value) == ""
  }

  /** `concat_and_dedupe_containers`. */
  function ConcatAndDedupeContainers(values: seq<Option<string>>): (s: string)
    ensures ParseContainerIds(Some(s)) == Dedupe(AllContainerIds(values))
  {
    var all := AllContainerIds(values);
    var d := Dedupe(all);
    assert forall k :: 0 <= k < |d| ==> WellFormedId(d[k]) by {
      forall k | 0 <= k < |d| ensures WellFormedId(d[k]) {
        var i := IndexOf(all, d[k]);
      }
    }
    JoinContainerIds(d)
  }

  /** The concatenation holds every input ID exactly once, in order of first
      occurrence. */
  lemma ConcatAndDedupeSpec(values: seq<Option<string>>)
    ensures var ids := ParseContainerIds(Some(ConcatAndDedupeContainers(values)));
            NoDup(ids) &&
            (forall id :: id in ids <==> id in AllContainerIds(values)) &&
            FirstOccurrenceOrder(AllContainerIds(values), ids)
  {
    DedupeOrder(AllContainerIds(values));
  }

  function Prefix4(s: string): (r: string)
    ensures |r| <= 4 && |r| <= |s| && r == s[..|r|]
    ensures |s| >= 4 ==> |r| == 4
    ensures |s| < 4 ==> r == s
  {
    if |s| >= 4 then s[..4] else s
  }

  /** `normalize_facility_code`: NaN or blank gives ""; otherwise the first
      four characters of the trimmed, upper-cased code. */
  function NormalizeFacilityCode(v: Option<string>): (r: string)
    ensures |r| <= 4
    ensures forall k :: 0 <= k < |r| ==> !('a' <= r[k] <= 'z')
    ensures v.None? || Strip(v.value) == "" ==> r == ""
    ensures v.Some? && Strip(v.value) != "" ==> r != "" && !IsSpace(r[0])
  {
    match v
    case None => ""
    case Some(s) => if Strip(s) == "" then "" else Prefix4(Upper(Strip(s)))
  }

  /** Normalising a normalised code changes nothing, provided the code does
      not end in whitespace. */
  lemma NormalizeIdempotent(v: Option<string>)
    requires var r := NormalizeFacilityCode(v); r == "" || !IsSpace(r[|r| - 1])
    ensures NormalizeFacilityCode(Some(NormalizeFacilityCode(v))) == NormalizeFacilityCode(v)
  {
    var r := NormalizeFacilityCode(v);
    if r != "" {
      NormalizedIsFixed(r);
    }
  }

  lemma NormalizedIsFixed(r: string)
    requires 0 < |r| <= 4 && IsStripped(r)
    requires forall k :: 0 <= k < |r| ==> !('a' <= r[k] <= 'z')
    ensures NormalizeFacilityCode(Some(r)) == r
  {
    StripOfStripped(r);
    var u := Upper(r);
    forall k | 0 <= k < |r| ensures u[k] == r[k] {
      assert !('a' <= r[k] <= 'z');
    }
    assert u == r;
  }

  /** Without that proviso it fails: the four-character cut can leave inner
      blanks at the end, which a second pass strips. */
  lemma NormalizeNotIdempotent()
    ensures NormalizeFacilityCode(Some(NormalizeFacilityCode(Some("ab  x")))) != NormalizeFacilityCode(Some("ab  x"))
  {
    NormalizeCutsAtBlanks();
    NormalizeStripsCut();
  }

  lemma NormalizeCutsAtBlanks()
    ensures NormalizeFacilityCode(Some("ab  x")) == "AB  "
  {
    StripsNothing();
    UpperPrefix();
  }

  lemma StripsNothing()
    ensures Strip("ab  x") == "ab  x"
  {
    var a := "ab  x";
    assert TrimStart(a) == a;
    assert TrimEnd(a) == a;
  }

  lemma UpperPrefix()
    ensures Prefix4(Upper("ab  x")) == "AB  "
  {
    var u := Upper("ab  x");
    assert u[0] == 'A' && u[1] == 'B' && u[2] == ' ' && u[3] == ' ';
    assert Prefix4(u) == u[..4];
  }

  lemma NormalizeStripsCut()
    ensures NormalizeFacilityCode(Some("AB  ")) == "AB"
  {
    var b := "AB  ";
    assert TrimStart(b) == b;
    assert b[..3] == "AB " && b[..3][..2] == "AB";
    assert TrimEnd(b) == TrimEnd("AB ") == TrimEnd("AB") == "AB";
    var w := Upper("AB");
    assert w[0] == 'A' && w[1] == 'B';
  }

  /** Python `list.insert(i, x)`: past the end it appends. */
  function Insert(xs: seq<Column>, i: nat, x: Column): (r: seq<Column>)
    ensures |r| == |xs| + 1
    ensures forall y :: y in r <==> y in xs || y == x
    ensures i == 0 ==> r[0] == x
    ensures i > 0 && |xs| > 0 ==> r[0] == xs[0]
    ensures i >= |xs| ==> r[|r| - 1] == x
  {
    if i >= |xs| then xs + [x] else xs[..i] + [x] + xs[i..]
  }

  /** Inserts `x` at `i` when it is present in the data and not listed yet. */
  function InsertMissing(present: set<Column>, xs: seq<Column>, i: nat, x: Column): (r: seq<Column>)
    ensures forall y :: y in r <==> y in xs || (y == x && x in present)
    ensures x in present && x !in xs && i == 0 ==> r[0] == x
    ensures x in present && x !in xs && i >= |xs| ==> r[|r| - 1] == x
    ensures |xs| > 0 && (i > 0 || x !in present || x in xs) ==> |r| > 0 && r[0] == xs[0]
  {
    if x in present && x !in xs then Insert(xs, i, x) else xs
  }

  function KeepPresent(cols: seq<Column>, present: set<Column>): (r: seq<Column>)
    ensures forall c :: c in r <==> c in cols && c in present
    ensures |cols| > 0 && cols[0] in present ==> |r| > 0 && r[0] == cols[0]
  {
    if |cols| == 0 then []
    else (if cols[0] in present then [cols[0]] else []) + KeepPresent(cols[1..], present)
  }

  lemma {:induction false} KeepPresentLast(cols: seq<Column>, present: set<Column>)
    ensures |cols| > 0 && cols[|cols| - 1] in present ==>
              var r := KeepPresent(cols, present); |r| > 0 && r[|r| - 1] == cols[|cols| - 1]
  {
    if |cols| > 1 {
      KeepPresentLast(cols[1..], present);
    }
  }

  const DEFAULT_GROUPING: seq<Column> := [PORT, LANE, FACILITY, WEEK]

  /** The candidate columns before the presence filter: Category, SSL and
      Vessel inserted at positions 0, 1 and 2, Terminal appended, each only
      when present and not already listed. */
  function WithOptionalColumns(present: set<Column>, c0: seq<Column>): (c4: seq<Column>)
    ensures forall c :: c in c4 <==> c in c0 || (c in present && c in {CATEGORY, SSL, VESSEL, TERMINAL})
    ensures CATEGORY in present && CATEGORY !in c0 ==> c4[0] == CATEGORY
    ensures TERMINAL in present && TERMINAL !in c0 ==> c4[|c4| - 1] == TERMINAL
  {
    var c1 := InsertMissing(present, c0, 0, CATEGORY);
    var c2 := InsertMissing(present, c1, 1, SSL);
    var c3 := InsertMissing(present, c2, 2, VESSEL);
    InsertMissing(present, c3, |c3|, TERMINAL)
  }

  /** The order `get_grouping_columns` gives the default columns, before
      the presence filter. SSL goes to list position 1 and Vessel to list
      position 2 whatever stands in front of them, so without Category, SSL
      follows Discharged Port, and without SSL, Vessel follows Lane or
      Discharged Port. */
  function DefaultOrder(withCategory: bool, withSsl: bool): seq<Column>
  {
    if withCategory && withSsl then [CATEGORY, SSL, VESSEL, PORT, LANE, FACILITY, WEEK, TERMINAL]
    else if withCategory then [CATEGORY, PORT, VESSEL, LANE, FACILITY, WEEK, TERMINAL]
    else if withSsl then [PORT, SSL, VESSEL, LANE, FACILITY, WEEK, TERMINAL]
    else [PORT, LANE, VESSEL, FACILITY, WEEK, TERMINAL]
  }

  /** Listing a column the data lacks changes nothing after the filter. */
  lemma {:induction false} KeepPresentSkip(xs: seq<Column>, x: Column, ys: seq<Column>, present: set<Column>)
    requires x !in present
    ensures KeepPresent(xs + [x] + ys, present) == KeepPresent(xs + ys, present)
  {
    if |xs| > 0 {
      assert (xs + [x] + ys)[1..] == xs[1..] + [x] + ys;
      assert (xs + ys)[1..] == xs[1..] + ys;
      KeepPresentSkip(xs[1..], x, ys, present);
    } else {
      assert (xs + [x] + ys)[1..] == ys;
      assert xs + ys == ys;
    }
  }

  /** Listing Vessel at position 2 and Terminal last, and then filtering,
      is filtering the list with both inserted. */
  lemma VesselTerminal(present: set<Column>, c2: seq<Column>, d: seq<Column>)
    requires |c2| >= 2 && VESSEL !in c2 && TERMINAL !in c2
    requires d == c2[..2] + [VESSEL] + c2[2..] + [TERMINAL]
    ensures KeepPresent(InsertMissing(present, InsertMissing(present, c2, 2, VESSEL), |InsertMissing(present, c2, 2, VESSEL)|, TERMINAL), present) ==
            KeepPresent(d, present)
  {
    var c3 := InsertMissing(present, c2, 2, VESSEL);
    var c4 := InsertMissing(present, c3, |c3|, TERMINAL);
    var full := c2[..2] + [VESSEL] + c2[2..];
    assert TERMINAL !in c3;
    assert d == full + [TERMINAL] + [];
    if VESSEL in present {
      assert c3 == full;
    } else {
      assert c3 == c2[..2] + c2[2..];
      KeepPresentSkip(c2[..2], VESSEL, c2[2..], present);
      KeepPresentSkip(c2[..2] + c2[2..] + [TERMINAL], VESSEL, [], present);
    }
    if TERMINAL in present {
      assert c4 == c3 + [TERMINAL];
      if VESSEL !in present {
        KeepPresentAppend(c3, [TERMINAL], present);
        KeepPresentAppend(full, [TERMINAL], present);
      }
    } else {
      assert c4 == c3;
      KeepPresentSkip(full, TERMINAL, [], present);
      assert full + [TERMINAL] + [] == d;
      assert full + [] == full;
    }
  }

  lemma {:induction false} KeepPresentAppend(xs: seq<Column>, ys: seq<Column>, present: set<Column>)
    ensures KeepPresent(xs + ys, present) == KeepPresent(xs, present) + KeepPresent(ys, present)
  {
    if |xs| > 0 {
      assert (xs + ys)[1..] == xs[1..] + ys;
      KeepPresentAppend(xs[1..], ys, present);
    } else {
      assert xs + ys == ys;
    }
  }

  /** The candidates for the default base, case by case. */
  lemma DefaultCandidates(present: set<Column>)
    ensures KeepPresent(WithOptionalColumns(present, DEFAULT_GROUPING), present) ==
            KeepPresent(DefaultOrder(CATEGORY in present, SSL in present), present)
  {
    var c2 := InsertMissing(present, InsertMissing(present, DEFAULT_GROUPING, 0, CATEGORY), 1, SSL);
    var d := DefaultOrder(CATEGORY in present, SSL in present);
    if CATEGORY in present {
      WithCategory(present, c2, d);
    } else {
      WithoutCategory(present, c2, d);
    }
    VesselTerminal(present, c2, d);
  }

  /** With Category present, the first two insertions give Category first
      and SSL, when present, second. */
  lemma WithCategory(present: set<Column>, c2: seq<Column>, d: seq<Column>)
    requires CATEGORY in present
    requires c2 == InsertMissing(present, InsertMissing(present, DEFAULT_GROUPING, 0, CATEGORY), 1, SSL)
    requires d == DefaultOrder(CATEGORY in present, SSL in present)
    ensures |c2| >= 2 && VESSEL !in c2 && TERMINAL !in c2 && d == c2[..2] + [VESSEL] + c2[2..] + [TERMINAL]
  {
    var c1 := InsertMissing(present, DEFAULT_GROUPING, 0, CATEGORY);
    assert c1 == [CATEGORY, PORT, LANE, FACILITY, WEEK];
    if SSL in present {
      assert c2 == [CATEGORY, SSL, PORT, LANE, FACILITY, WEEK];
    } else {
      assert c2 == c1;
    }
  }

  /** Without Category, the default base is kept and SSL, when present,
      goes second. */
  lemma WithoutCategory(present: set<Column>, c2: seq<Column>, d: seq<Column>)
    requires CATEGORY !in present
    requires c2 == InsertMissing(present, InsertMissing(present, DEFAULT_GROUPING, 0, CATEGORY), 1, SSL)
    requires d == DefaultOrder(CATEGORY in present, SSL in present)
    ensures |c2| >= 2 && VESSEL !in c2 && TERMINAL !in c2 && d == c2[..2] + [VESSEL] + c2[2..] + [TERMINAL]
  {
    var c1 := InsertMissing(present, DEFAULT_GROUPING, 0, CATEGORY);
    assert c1 == DEFAULT_GROUPING;
    if SSL in present {
      assert c2 == [PORT, SSL, LANE, FACILITY, WEEK];
    } else {
      assert c2 == c1;
    }
  }

  /** `get_grouping_columns(data, base_cols)`. */
  function GetGroupingColumns(present: set<Column>, base: Option<seq<Column>>): (r: seq<Column>)
    ensures base.None? ==> r == KeepPresent(DefaultOrder(CATEGORY in present, SSL in present), present)
    ensures forall c :: c in r ==> c in present
    ensures forall c :: c in present && c in base.GetOr(DEFAULT_GROUPING) ==> c in r
    ensures forall c :: c in present && c in {CATEGORY, SSL, VESSEL, TERMINAL} ==> c in r
    ensures forall c :: c in r ==> c in base.GetOr(DEFAULT_GROUPING) || c in {CATEGORY, SSL, VESSEL, TERMINAL}
    ensures CATEGORY in present && CATEGORY !in base.GetOr(DEFAULT_GROUPING) ==> r[0] == CATEGORY
    ensures TERMINAL in present && TERMINAL !in base.GetOr(DEFAULT_GROUPING) ==> r[|r| - 1] == TERMINAL
  {
    var c0 := base.GetOr(DEFAULT_GROUPING);
    var c4 := WithOptionalColumns(present, c0);
    KeepPresentLast(c4, present);
    assert TERMINAL in present && TERMINAL !in c0 ==> c4[|c4| - 1] in present;
    assert base.None? ==> KeepPresent(c4, present) == KeepPresent(DefaultOrder(CATEGORY in present, SSL in present), present) by {
      if base.None? {
        DefaultCandidates(present);
      }
    }
    KeepPresent(c4, present)
  }

  /** `facility[:4].upper() == excluded.upper()[:4]`; a NaN facility never matches. */
  predicate FacilityMatches(facility: Option<string>, excluded: string)
  {
    facility.Some? && Upper(Prefix4(facility.value)) == Prefix4(Upper(excluded))
  }

  /** The row's carrier is barred from the row's facility. */
  predicate BarredAtFacility(r: Shipment, exclusions: map<string, set<string>>)
  {
    r.carrier.Some? && r.carrier.value in exclusions &&
    exists f :: f in exclusions[r.carrier.value] && FacilityMatches(r.facility, f)
  }

  /** Some carrier is barred from at least one facility. */
  predicate AnyExclusion(exclusions: map<string, set<string>>)
  {
    exists c :: c in exclusions && exclusions[c] != {}
  }

  /** `filter_excluded_carrier_facility_rows` with the default carrier column:
      the rows whose carrier is barred at their facility are masked out, and the
      others keep their input order. A non-empty table with a Facility column
      but no carrier column raises KeyError at the first excluded facility. */
  function FilterExcludedCarrierFacilityRows(t: Table, exclusions: map<string, set<string>>): (r: Result<seq<Shipment>>)
    ensures r.Failure? <==> |t.rows| > 0 && FACILITY in t.columns && CARRIER !in t.columns && AnyExclusion(exclusions)
    ensures r.Failure? ==> r.error == KeyError(CARRIER)
    ensures r.Success? && (exclusions == map[] || FACILITY !in t.columns) ==> r.value == t.rows
    ensures r.Success? && exclusions != map[] && FACILITY in t.columns ==>
              forall x :: multiset(r.value)[x] == if BarredAtFacility(x, exclusions) then 0 else multiset(t.rows)[x]
    ensures r.Success? && exclusions != map[] && FACILITY in t.columns ==>
              r.value == Filter(t.rows, (x: Shipment) => !BarredAtFacility(x, exclusions))
  {
    if exclusions == map[] || |t.rows| == 0 || FACILITY !in t.columns then Success(t.rows)
    else if CARRIER !in t.columns && AnyExclusion(exclusions) then Failure(KeyError(CARRIER))
    else Success(Filter(t.rows, (x: Shipment) => !BarredAtFacility(x, exclusions)))
  }
}
