# Tender allocation model

A model, in Dafny, of the allocation core of a freight tender optimiser.
The optimiser works on an allocation table with one row per lane, week,
facility (and optionally category, terminal, vessel) and carrier. Each row
holds a container count, a comma-separated list of container IDs, rates
and a performance score. From that table it builds several scenarios. Each
scenario redistributes the containers of every lane/week group among the
carriers and keeps the container IDs consistent with the counts.

The model covers these parts of the repository:

- **Shared ID and grouping helpers** (`components/utils.py`). Parsing,
  counting, joining and deduplicating container IDs; normalising facility
  codes to four upper-case characters; choosing the grouping columns;
  filtering out carrier/facility exclusions.
- **Constraint pre-allocation** (`components/constraints_processor.py`).
  `clean_percent`, the Maximum > Minimum > Percent target rule, a tracker
  of IDs already claimed (a `class` updated in place), and the greedy row
  loop of `apply_constraints_to_data`. That loop locks IDs to a carrier in
  week order until the constraint's target is met.
- **Advanced constraints** (`components/constraints_advanced.py`).
  Validating an uploaded rule sheet into prioritised rules, the
  min/max/percent clamp, and the greedy allocation loop that pins rows to
  rules, together with its summary and balance check.
- **Historical shares** (`optimization/historic_volume.py`). Weeks before
  the current week, the last n distinct weeks, each carrier's share of a
  lane's volume, its active weeks, week-by-week trends and lane
  participation. The current week is a parameter.
- **Cascading allocation** (`optimization/cascading_logic.py`). Ranking a
  group's carriers from the LP output, historical shares, the three-pass
  cascade with growth caps, largest-remainder rounding, handing out the
  group's IDs, deduplicating them across rows, and the split of rows of
  carriers under a maximum constraint.
- **LP post-processing** (`optimization/linear_programming.py`). Min-max
  normalisation, weight handling, and what `_optimize_single_group` makes
  of the solver's per-carrier allocation: banker's rounding, dropping
  small shares, slicing the ID pool, leftover IDs to the first row, and
  the recount. The solver's answer is an input.
- **Single-winner scenarios** (`optimization/performance_logic.py`,
  `optimization/cheapest_logic.py`, `components/performance_calculator.py`).
  A stable sort, the first row of each group, and that row taking the
  whole group volume and every ID. Also each carrier's volume-weighted
  performance and the cost of giving each group to its best performer.
- **Container tracer** (`components/container_tracer.py`). The map from
  each ID to its first baseline carrier, the kept / flipped / unknown
  partition of each scenario row, the "Had N → From X (+k), Lost m → Now T"
  text, and the movement summary with its flow matrix.

Each source file is one Dafny module of the same name. `Frame` holds the
table, `Groups` pandas `groupby`, `Selection` the shared winner logic,
`PyMath` Python's `int()`/`round()` on exact reals, and `Seqs`, `Text` and
`Wrappers` generic sequence, string and Option/Result helpers. pandas NaN
cells are `None`, and an absent column is recorded in `Table.columns`.
Where the source mutates state in loops, the model is a method with loop
invariants, proved against a function that specifies it.

## Model

| member | source | states |
|---|---|---|
| Utils.Pieces | components/utils.py:58 | the stripped non-empty comma pieces, each a well-formed ID, no more of them than pieces |
| Utils.ParseContainerIds | components/utils.py:46-58 | NaN gives no IDs; every ID returned is non-empty, trimmed and comma-free |
| Utils.ParseBlank | components/utils.py:56-57 | an all-blank string gives no IDs |
| Utils.CountContainers | components/utils.py:31-43 | the count is the number of IDs `parse_container_ids` returns |
| Utils.NonEmpty | components/utils.py:71 | the non-empty entries, each one of the inputs, none dropped |
| Utils.NonEmptyOfNonEmpty | components/utils.py:71 | a list without empty entries is kept whole |
| Utils.SplitJoined | components/utils.py:58-71 | splitting the ", "-joined list on commas gives the first entry and the others with a leading space |
| Utils.PiecesPadded | components/utils.py:58 | stripping the space-padded pieces gives back the IDs |
| Utils.ParseJoin | components/utils.py:46-71 | parsing the joined well-formed IDs gives back exactly those IDs |
| Utils.JoinContainerIds | components/utils.py:61-71 | IDs that are non-empty, trimmed and comma-free, joined with ", ", parse back to exactly those IDs |
| Utils.ParseTrailingComma | components/utils.py:46-58 | a trailing comma adds no ID (so "C001, C002," counts 2) |
| Utils.AllContainerIds | components/utils.py:84-87 | the IDs collected from every cell are well-formed |
| Utils.ParseJoined | components/utils.py:46-90 | parsing IDs joined with ", " gives them back |
| Utils.AllContainerIdsSnoc | components/utils.py:85-87 | collecting one more cell appends its IDs |
| Utils.AllContainerIdsFlatten | components/utils.py:84-87 | the collected IDs are the cells' IDs, flattened in cell order |
| Utils.IdOfCell | components/utils.py:84-87 | an ID of any cell is among the collected IDs |
| Utils.CellOfId | components/utils.py:84-87 | every collected ID comes from some cell |
| Utils.ConcatAndDedupeSpec | components/utils.py:74-90 | the result parses to IDs without duplicates, with the same set as all inputs' IDs, in first-occurrence order |
| Utils.ConcatAndDedupeContainers | components/utils.py:74-90 | the result parses back to the IDs of all cells with repeats removed, each at its first occurrence |
| Utils.Prefix4 | components/utils.py:148 | the first four characters, or the whole string when shorter |
| Utils.NormalizeFacilityCode | components/utils.py:133-148 | at most 4 characters, none lower-case; '' for NaN or blank; non-blank input gives a non-empty result starting with a non-space |
| Utils.NormalizeIdempotent | components/utils.py:133-148 | normalising twice equals normalising once whenever the first result does not end in whitespace (the source's function is not idempotent in general, see `NormalizeNotIdempotent`) |
| Utils.NormalizedIsFixed | components/utils.py:133-148 | a trimmed code of 1 to 4 non-lower-case characters is left unchanged |
| Utils.NormalizeNotIdempotent | components/utils.py:145-148 | "ab  x" normalises to "AB  " and then to "AB": the four-character cut can end in blanks that a second pass strips |
| Utils.Insert | components/utils.py:116-124 | inserting at a position adds exactly that column there, or at the end past the list |
| Utils.InsertMissing | components/utils.py:115-128 | a present column not yet listed is inserted; otherwise the list is unchanged |
| Utils.KeepPresent | components/utils.py:130 | exactly the listed columns present in the data, in order |
| Utils.KeepPresentLast | components/utils.py:127-130 | a present last column stays last |
| Utils.WithOptionalColumns | components/utils.py:114-128 | the base plus whichever of Category, SSL, Vessel and Terminal are present and missing, Category first and Terminal last |
| Utils.GetGroupingColumns | components/utils.py:95-130 | only present columns; every present base column and every present optional column is kept; Category first and Terminal last when added; with the default base, exactly the present columns of the `DefaultOrder` table: Category, then SSL at list position 1 and Vessel at list position 2, then the base columns and Terminal. So without Category, SSL follows Discharged Port, and without SSL, Vessel follows the list's second column |
| Utils.FilterExcludedCarrierFacilityRows | components/utils.py:224-256 | a KeyError on the carrier column exactly when the table has rows and a Facility column but no carrier column, and some carrier has an excluded facility; otherwise unchanged with no exclusions or no Facility column, and else exactly the rows whose carrier is barred at their facility's first four upper-cased characters are removed, the rest keep their order |
| Utils.NormalizeCutsAtBlanks | components/utils.py:145-148 | "ab  x" normalises to "AB  " |
| Utils.NormalizeStripsCut | components/utils.py:145-148 | "AB  " normalises to "AB" |
| ConstraintsProcessor.AsPercentage | components/constraints_processor.py:189-192 | a fraction in (0, 1] becomes a percentage in (0, 100] |
| ConstraintsProcessor.CleanPercent | components/constraints_processor.py:182-203 | NaN and "" give no value; a number in (0, 1] becomes 100 times itself and any other number is kept; a text gives a value only when, stripped and without '%', it parses as a number |
| ConstraintsProcessor.FractionOrPercent | components/constraints_processor.py:182-205 | a number in (0, 1] is multiplied by 100, any other number is kept |
| ConstraintsProcessor.TextAgreesWithNumber | components/constraints_processor.py:194-201 | the text "n%" and "n" clean to the same value as the number n |
| ConstraintsProcessor.TextAgreesWithParsed | components/constraints_processor.py:194-201 | a non-empty text that, stripped and without its '%' signs, parses as x cleans to the same value as the number x: "0.25" gives 25 and "12.5%" gives 12.5 |
| Text.ParsedDecimal | components/constraints_processor.py:196 | `float()` of a stripped text of digits with one decimal point is the whole part plus the digits after the point over the matching power of ten |
| ConstraintsProcessor.BlankIsNoPercent | components/constraints_processor.py:182-205 | a blank cell cleans to no value |
| ConstraintsProcessor.Ceil | components/constraints_processor.py:534 | `math.ceil`: the least integer not below the value |
| ConstraintsProcessor.PercentTarget | components/constraints_processor.py:522-539 | the percent target never exceeds the eligible total |
| ConstraintsProcessor.TargetRule | components/constraints_processor.py:490-550 | an allocation target never exceeds the eligible total |
| ConstraintsProcessor.TargetPriority | components/constraints_processor.py:490-550 | a Maximum without a carrier is an error, no amount at all is a skip, and otherwise Maximum beats Minimum beats Percent |
| ConstraintsProcessor.CountTarget | components/constraints_processor.py:503-520 | a Maximum or Minimum target is min(value, eligible total), truncated |
| ConstraintsProcessor.PercentCeiling | components/constraints_processor.py:522-539 | a percent target is the ceiling of total × p / 100, or the total when that is smaller |
| ConstraintsProcessor.PercentAtLeastOne | components/constraints_processor.py:522-539 | a positive percent of a positive total gives at least one container |
| ConstraintsProcessor.RowIds | components/constraints_processor.py:25-29 | a row's split IDs are well-formed; none without an IDs column |
| ConstraintsProcessor.Untracked | components/constraints_processor.py:54 | exactly the row's IDs not yet in the tracker |
| ConstraintsProcessor.Eligible | components/constraints_processor.py:393-457 | distinct row positions, exactly the rows that match the filters, are not barred at an excluded facility and have an untracked ID |
| ConstraintsProcessor.NormalizeStripped | components/constraints_processor.py:12-22 | stripping first does not change the normalised facility |
| ConstraintsProcessor.EligibleAvoidsExcluded | components/constraints_processor.py:393-423 | no eligible row's normalised facility equals an Excluded FC of any constraint for the same carrier |
| ConstraintsProcessor.AvailablePositive | components/constraints_processor.py:449-457 | the available total is positive exactly when some row is eligible |
| ConstraintsProcessor.ByWeekIsOrder | components/constraints_processor.py:558 | the week order (missing weeks last, ties by position) is a strict total order |
| ConstraintsProcessor.Claimable | components/constraints_processor.py:51-62 | taken ++ left is the row's untracked IDs in order; min(n, available) are taken |
| ConstraintsProcessor.Tracker.AllocateSpecificContainers | components/constraints_processor.py:37-72 | returns `Claimable`'s split and records every taken ID with carrier, week and row |
| ConstraintsProcessor.Tracker.Record | components/constraints_processor.py:65-70 | the tracker gains exactly the given IDs with the given claim |
| ConstraintsProcessor.Recorded | components/constraints_processor.py:65-70 | the new keys are the old plus the IDs; the IDs map to the claim, others keep theirs |
| ConstraintsProcessor.AssignedHolds | components/constraints_processor.py:584-604 | the constrained record holds exactly the taken IDs, counted, under the target carrier |
| ConstraintsProcessor.RestRewritten | components/constraints_processor.py:610-617 | the remaining row holds exactly the left IDs |
| ConstraintsProcessor.OneRow | components/constraints_processor.py:573-617 | one row's claim gives a record holding the taken IDs |
| ConstraintsProcessor.RecordsSnoc | components/constraints_processor.py:584-607 | appending a record keeps all records locked to the carrier and disjoint |
| ConstraintsProcessor.RowsUpdate | components/constraints_processor.py:610-617 | rewriting a visited row keeps the rows related to the input |
| ConstraintsProcessor.ProgressStep | components/constraints_processor.py:560-617 | one row of the loop keeps the loop invariant |
| ConstraintsProcessor.AllocateNext | components/constraints_processor.py:560-617 | one turn of the row loop keeps the invariant, the count never passing the target |
| ConstraintsProcessor.AllocateRows | components/constraints_processor.py:556-617 | the row loop stops at the target; every record locks untracked IDs to the carrier; allocated ≤ target; on rows that list each ID once, the rows lose exactly the containers the records take and stay clean of tracked IDs |
| ConstraintsProcessor.BalanceStep | components/constraints_processor.py:573-617 | one row's claim moves its containers from the row to the record: the rows lose exactly what is taken, rows not yet visited are unchanged, and no row lists a tracked ID |
| ConstraintsProcessor.RestConsistent | components/constraints_processor.py:610-617 | the row left behind lists the untaken IDs, once each, none tracked, and its count is their number |
| ConstraintsProcessor.CleanUpdate | components/constraints_processor.py:610-617 | shrinking the visited row to part of its IDs keeps every row free of the newly tracked IDs and no ID in two rows |
| ConstraintsProcessor.LockedCountDrop | components/constraints_processor.py:641-643 | dropping a violating record loses its containers: the constrained total falls strictly |
| ConstraintsProcessor.DropEmptyKeepsTotal | components/constraints_processor.py:686-687 | removing the rows with no containers keeps the unconstrained total |
| ConstraintsProcessor.BalancedSnoc | components/constraints_processor.py:323-684 | one more constraint keeps the loop's balance: the total never grows, and it is unchanged exactly while no constraint has Failed |
| ConstraintsProcessor.TouchedTrans | components/constraints_processor.py:610-617 | rewrites compose |
| ConstraintsProcessor.KeptIsTouched | components/constraints_processor.py:610-617 | the loop's rewrites are allowed rewrites |
| ConstraintsProcessor.HeldAppend | components/constraints_processor.py:607 | new records join the held records, all tracked |
| ConstraintsProcessor.HeldFilter | components/constraints_processor.py:641-643 | dropping records keeps the rest held |
| ConstraintsProcessor.CappedSnoc | components/constraints_processor.py:515 | one more constraint adds its carrier to the capped set exactly when it is a Maximum with a carrier |
| ConstraintsProcessor.CappedCarriersSpec | components/constraints_processor.py:515 | a carrier is capped exactly when some constraint is a Maximum for it |
| ConstraintsProcessor.LockTarget | components/constraints_processor.py:555-686 | applied: at most the target is locked, appended to the earlier records; failed for an excluded-facility violation: the violating records are dropped and 0 reported; with no target or no eligible row nothing is locked; on clean rows, constrained plus unconstrained containers are unchanged when applied and fall when failed |
| ConstraintsProcessor.AllotConstraint | components/constraints_processor.py:446-686 | the week sort raises exactly when the table has no Week Number and some row is eligible under a positive target; otherwise the constraint is reported with the right status, skips change nothing, applied or failed ones use the target rule on the eligible total, and on clean rows the container total is kept unless the constraint Failed |
| ConstraintsProcessor.ApplyConstraint | components/constraints_processor.py:323-686 | a KeyError exactly when a constraint that is not an excluded facility without a carrier filters by Lane or Week Number on a table without that column, or reaches an allocation on a table without Week Number, and then nothing changes; otherwise each constraint is reported with the right status, skips and errors change nothing, applied or failed ones use the target rule on the eligible total, and on clean rows the container total is kept unless the constraint Failed |
| ConstraintsProcessor.LoopStep | components/constraints_processor.py:323-684 | a constraint that raised nothing extends the loop's state: one more entry, the capped carriers, the rewritten rows, and the balance |
| ConstraintsProcessor.ConstraintLoop | components/constraints_processor.py:323-684 | stops at the first KeyError, always on Lane or Week Number, and on a table with Week Number only at a constraint whose filter needs a missing column; with none raised, every constraint is reported, nothing is locked on a table without Week Number, and the balance holds on a table listing each ID once |
| ConstraintsProcessor.ApplyConstraintsToData | components/constraints_processor.py:240-714 | no constraints: the table unchanged; a KeyError on Lane, Week Number or Container Count, always when there are constraints and no Container Count column or a constraint filters by a missing Lane or Week Number, and, on a table with Week Number, only then; otherwise one summary entry per constraint, the capped carriers, every record holding as many IDs as its count, no ID in two records, rows without containers dropped, nothing locked on a table without Week Number; on a table listing each container ID once, constrained plus unconstrained containers never exceed the original, and equal it (the check at lines 696-707 passes) exactly when no constraint ended Failed |
| ConstraintsAdvanced.Filled | components/constraints_advanced.py:159-165 | one row per sheet row; a field absent from the sheet reads as missing; a missing priority becomes 50 |
| ConstraintsAdvanced.ToNumber | components/constraints_advanced.py:193-198 | a number is kept, a missing cell stays missing |
| ConstraintsAdvanced.ParseWeekList | components/constraints_advanced.py:180-182 | when every comma piece parses as an integer, the list of those integers, one per piece |
| ConstraintsAdvanced.ParseWeekListFails | components/constraints_advanced.py:180-184 | the week list is dropped exactly when some piece fails to parse |
| ConstraintsAdvanced.Weeks | components/constraints_advanced.py:176-190 | a missing week gives none; a number n gives [int(n)] |
| ConstraintsAdvanced.WeekTexts | components/constraints_advanced.py:181 | each week written as its decimal text |
| ConstraintsAdvanced.ParseWeekListOfTexts | components/constraints_advanced.py:181 | parsing the texts of weeks gives back the weeks |
| ConstraintsAdvanced.WeeksOfList | components/constraints_advanced.py:176-182 | the text "32,33" style list of weeks parses back to the weeks |
| ConstraintsAdvanced.ProcessRow | components/constraints_advanced.py:170-215 | every rule produced is well-formed: percent in [0, 100], min ≤ max when both exist |
| ConstraintsAdvanced.ProcessRowSpec | components/constraints_advanced.py:170-215 | a row is skipped exactly when it is blank or its percent lies outside [0, 100]; otherwise its fields are kept, min and max swapped when min > max, priority 50 when missing |
| ConstraintsAdvanced.ProcessRows | components/constraints_advanced.py:168-215 | no more rules than rows, all well-formed |
| ConstraintsAdvanced.ProcessRowsMembers | components/constraints_advanced.py:168-215 | a rule is produced exactly when some row yields it |
| ConstraintsAdvanced.ProcessRowsLast | components/constraints_advanced.py:170-215 | the last row adds its own rule, if any |
| ConstraintsAdvanced.ByPriorityIsOrder | components/constraints_advanced.py:223 | the priority order (descending, missing last, ties by position) is a strict total order |
| ConstraintsAdvanced.SortRules | components/constraints_advanced.py:223 | a permutation of the rules in descending priority, missing priorities last |
| ConstraintsAdvanced.ValidateAndProcessConstraints | components/constraints_advanced.py:140-225 | none without a scope column or without a limit column; otherwise the processed rules sorted by priority, none when no rule survives |
| ConstraintsAdvanced.Candidates | components/constraints_advanced.py:311-340 | distinct positions of exactly the rows in scope of the rule and not yet allocated |
| ConstraintsAdvanced.Counts | components/constraints_advanced.py:353 | the candidates' container counts |
| ConstraintsAdvanced.AdvancedTarget | components/constraints_advanced.py:357-384 | the target never exceeds the available total nor int(max) |
| ConstraintsAdvanced.TargetBounds | components/constraints_advanced.py:357-384 | the target is at least min(int(min), available); with no percent, min or max it is the whole available total; otherwise floor of the percent share before the bounds |
| ConstraintsAdvanced.Greedy | components/constraints_advanced.py:389-424 | one take per row, each between 0 and its count, adding up to at most the target |
| ConstraintsAdvanced.GreedyComplete | components/constraints_advanced.py:393-424 | short of the target, every row with containers was taken whole |
| ConstraintsAdvanced.GreedyStops | components/constraints_advanced.py:394-395 | once the target is reached later rows take nothing |
| ConstraintsAdvanced.GreedyAfterTarget | components/constraints_advanced.py:394-395 | a row after the target is reached takes 0 |
| ConstraintsAdvanced.NotesText | components/constraints_advanced.py:411-419 | empty without category, carrier and notes; starts with "Cat:" and the category when there is one |
| ConstraintsAdvanced.Rows | components/constraints_advanced.py:421 | the constrained records' rows |
| ConstraintsAdvanced.LedgerSnoc | components/constraints_advanced.py:402-424 | a new record taking part of an unused row keeps the records matched to distinct used rows |
| ConstraintsAdvanced.Entries | components/constraints_advanced.py:389-393 | the sorted candidates with their rows |
| ConstraintsAdvanced.QueueCounts | components/constraints_advanced.py:397-399 | the counts of the queued rows |
| ConstraintsAdvanced.WalkOf | components/constraints_advanced.py:389-424 | one take per queued row and at most one record per queued row |
| ConstraintsAdvanced.WalkGiven | components/constraints_advanced.py:422 | the allocated total is the sum of the takes |
| ConstraintsAdvanced.WalkTakes | components/constraints_advanced.py:389-424 | the walk's takes are the greedy takes |
| ConstraintsAdvanced.WalkPicksFromQueue | components/constraints_advanced.py:423-424 | every allocated index is a queued row |
| ConstraintsAdvanced.WalkIdle | components/constraints_advanced.py:394-395 | rows after the target is reached change nothing |
| ConstraintsAdvanced.WalkNext | components/constraints_advanced.py:393-424 | one turn of the row loop keeps the walk's invariant |
| ConstraintsAdvanced.PinRows | components/constraints_advanced.py:389-424 | the loop appends the walk's records and indices and returns its total |
| ConstraintsAdvanced.LedgerAdvance | components/constraints_advanced.py:393-424 | a loop turn keeps the records matched to distinct used rows |
| ConstraintsAdvanced.WalkLedger | components/constraints_advanced.py:389-424 | the whole walk keeps the records matched to distinct used rows |
| ConstraintsAdvanced.RuleQueue | components/constraints_advanced.py:338-389 | the candidates, all in scope, in week order |
| ConstraintsAdvanced.RuleEffect | components/constraints_advanced.py:308-435 | "No matching data" exactly when there is no candidate, changing nothing; otherwise "Applied" with the walk's total, record count and target, the total between 0 and the target |
| ConstraintsAdvanced.RuleShortfall | components/constraints_advanced.py:389-424 | an applied rule short of its target took every queued row whole |
| ConstraintsAdvanced.ApplyRule | components/constraints_advanced.py:308-435 | the method computes `RuleEffect` and keeps the records matched |
| ConstraintsAdvanced.PlanOf | components/constraints_advanced.py:308-435 | one summary entry per rule |
| ConstraintsAdvanced.PlanLedger | components/constraints_advanced.py:308-435 | all records are matched to distinct used rows |
| ConstraintsAdvanced.PlanSummary | components/constraints_advanced.py:344-346 | the k-th entry has id k + 1 and the rule's truncated priority |
| ConstraintsAdvanced.KeptRows | components/constraints_advanced.py:444-445 | no more rows than the input |
| ConstraintsAdvanced.SortRulesPriorities | components/constraints_advanced.py:223 | sorting keeps every priority present |
| ConstraintsAdvanced.ApplyNext | components/constraints_advanced.py:308-435 | one constraint of the loop extends the plan by exactly that rule |
| ConstraintsAdvanced.ApplyAdvancedConstraints | components/constraints_advanced.py:273-465 | disabled or without rules: nothing constrained, data unchanged; a rule whose priority is NaN makes `int()` raise, and only then; otherwise the records, the rows never touched, and the summary of the rules in priority order |
| ConstraintsAdvanced.ApplyRules | components/constraints_advanced.py:308-435 | the loop computes `PlanOf` |
| ConstraintsAdvanced.KeptRowsIgnore | components/constraints_advanced.py:444-445 | an index outside the table removes nothing |
| ConstraintsAdvanced.KeptRowsTake | components/constraints_advanced.py:444-445 | removing a used row subtracts its count |
| ConstraintsAdvanced.AdvancedBalance | components/constraints_advanced.py:437-461 | the input total is the constrained total plus the unconstrained total plus what partly taken rows lost |
| ConstraintsAdvanced.KeptRowsNone | components/constraints_advanced.py:444-445 | with nothing used all rows are kept |
| ConstraintsAdvanced.DroppedZero | components/constraints_advanced.py:444-461 | the lost amount is never negative and is zero exactly when every touched row was taken whole |
| ConstraintsAdvanced.PartialRowDropped | components/constraints_advanced.py:444-445 | a row of 10 with target 4: 4 constrained, the row removed, 6 lost |
| ConstraintsAdvanced.Leftovers | components/constraints_advanced.py:397-424 | at most one leftover row per record |
| ConstraintsAdvanced.LeftoversDropped | components/constraints_advanced.py:397-445 | the leftovers hold exactly the lost amount |
| ConstraintsAdvanced.LeftoverStep | components/constraints_advanced.py:397-424 | one more record adds its row's untaken rest to the leftovers |
| ConstraintsAdvanced.CorrectedBalance | components/constraints_advanced.py:437-461 | with partly taken rows' rests kept, the input total is the constrained plus the unconstrained total |
| HistoricVolume.WeeksOf | optimization/historic_volume.py:114 | one week per row, in row order |
| HistoricVolume.FilterHistoricalWeeks | optimization/historic_volume.py:42-78 | empty input gives an empty table; a missing week column is an error and the only one; the kept rows are exactly those whose week is before the current week, in input order |
| HistoricVolume.TopWeeksCount | optimization/historic_volume.py:113-117 | the selected weeks are distinct weeks of the history, min(n, number of distinct weeks) of them |
| HistoricVolume.TopWeeksLatest | optimization/historic_volume.py:113-117 | every history week left out is earlier than every selected week |
| HistoricVolume.WeeksOfPermutation | optimization/historic_volume.py:113-114 | reordering rows (the descending sort) does not change which weeks occur |
| HistoricVolume.WeeksOfPermutationDedupe | optimization/historic_volume.py:113-114 | reordering rows does not change the number of distinct weeks |
| HistoricVolume.LastNWeeks | optimization/historic_volume.py:81-122 | an error exactly when a non-empty input lacks the week column; the result keeps exactly the completed rows whose week is among the latest n completed weeks |
| HistoricVolume.LastNWeeksWeeks | optimization/historic_volume.py:81-122 | every kept row is completed and in a selected week; the selected weeks are the latest completed ones |
| HistoricVolume.LaneCols | optimization/historic_volume.py:217-219 | Category and Lane, or Lane alone |
| HistoricVolume.GroupCols | optimization/historic_volume.py:204-206 | carrier followed by the lane columns, without the week column |
| HistoricVolume.RoundedShare | optimization/historic_volume.py:228-238 | the share rounded to two decimals is within 0.005 of carrier total over lane total times 100 |
| HistoricVolume.AvgWeekly | optimization/historic_volume.py:233-239 | within 0.05 of total over active weeks; 0 when there are no weeks |
| HistoricVolume.Labelled | optimization/historic_volume.py:209-239 | a result row carries the total, active weeks, lane total, rounded share and average it was given |
| HistoricVolume.LabelledKey | optimization/historic_volume.py:209-225 | a result row's group key and lane key are the group key and its lane part |
| HistoricVolume.ShareFor | optimization/historic_volume.py:209-239 | a group's row sums its containers, sums its lane's containers and counts its distinct weeks |
| HistoricVolume.ShareForKey | optimization/historic_volume.py:209-225 | a group's row is keyed by that group |
| HistoricVolume.GroupKeysAreStrings | optimization/historic_volume.py:209 | every group key has one string cell per grouping column |
| HistoricVolume.SortShareKeys | optimization/historic_volume.py:242-246 | the group keys reordered by lane ascending then share descending, nothing lost or added |
| HistoricVolume.LanesOf | optimization/historic_volume.py:242-246 | each key's lane part |
| HistoricVolume.SharesOf | optimization/historic_volume.py:242-246 | each key's rounded share |
| HistoricVolume.ShareOrder | optimization/historic_volume.py:246 | a permutation of the rows sorted by lane then descending share |
| HistoricVolume.ShareOrderSorted | optimization/historic_volume.py:246 | applying that permutation gives keys in lane order, higher shares first |
| HistoricVolume.ShareKeys | optimization/historic_volume.py:209-246 | one key per group, sorted by lane then descending share |
| HistoricVolume.RowsFor | optimization/historic_volume.py:209-239 | one row per key, each the group's row |
| HistoricVolume.ShareRowsKeys | optimization/historic_volume.py:209-246 | the k-th result row belongs to the k-th sorted key and holds its sums |
| HistoricVolume.ShareRowsOnePerGroup | optimization/historic_volume.py:209-225 | exactly one result row per carrier-lane(-category) group occurring in the history |
| HistoricVolume.ShareRowsTotals | optimization/historic_volume.py:209-225 | every row's total and lane total are the history's sums for its group and lane |
| HistoricVolume.ShareRowsSorted | optimization/historic_volume.py:242-246 | rows come in lane order, higher shares first within a lane |
| HistoricVolume.LaneSumGroups | optimization/historic_volume.py:209-221 | summing the rows of a lane is summing the lane's groups |
| HistoricVolume.LaneTotals | optimization/historic_volume.py:209-225 | the carriers' totals in a lane add up to the lane total |
| HistoricVolume.LaneShareScaled | optimization/historic_volume.py:228-230 | the unrounded shares of a lane are the lane's sum over its total, times 100 |
| HistoricVolume.LaneSharesSumTo100 | optimization/historic_volume.py:228-230 | the unrounded shares of a lane with volume add up to 100 |
| HistoricVolume.CarrierVolumeShare | optimization/historic_volume.py:125-248 | empty input gives no data; missing required columns is an error and the only one; an empty window gives the empty frame; otherwise the sorted rows above |
| HistoricVolume.VolumeShareWeeks | optimization/historic_volume.py:209-214 | every row was active in at least one and at most n weeks |
| HistoricVolume.ShareRowsWeeks | optimization/historic_volume.py:209-214 | every row's active weeks are between 1 and the number of weeks in the window |
| HistoricVolume.PivotWeeks | optimization/historic_volume.py:308-317 | the pivot's week columns: distinct, ascending, one for every week in the data |
| HistoricVolume.TrendFor | optimization/historic_volume.py:308-324 | one cell per week holding that week's containers for the carrier and lane, their total, and the rounded average over the weeks |
| HistoricVolume.TrendTotal | optimization/historic_volume.py:308-323 | a pivot row's total is the carrier's containers on that lane in the window |
| HistoricVolume.PivotWeeksCover | optimization/historic_volume.py:308-317 | every row of a carrier-lane pair falls in one of the pivot's weeks |
| HistoricVolume.WeeklyTrends | optimization/historic_volume.py:251-329 | empty input gives nothing; non-empty input without the week column is an error; the rows are sorted by decreasing total |
| HistoricVolume.Weeks | optimization/historic_volume.py:317-322 | one label per pivot week |
| HistoricVolume.TrendRows | optimization/historic_volume.py:323-327 | the trend rows, sorted by decreasing total, with none lost or added |
| HistoricVolume.PivotKeys | optimization/historic_volume.py:308-314 | one key per carrier-lane pair in the data |
| HistoricVolume.TrendsFor | optimization/historic_volume.py:308-324 | one trend row per key |
| HistoricVolume.WeeklyTrendTotals | optimization/historic_volume.py:308-327 | every carrier-lane pair has a row whose total is its containers in the window |
| HistoricVolume.TrendsOfWindow | optimization/historic_volume.py:291-329 | the trend table is computed from the last-n-weeks window |
| HistoricVolume.WindowHasWeeks | optimization/historic_volume.py:81-122 | every row of the window has a week |
| HistoricVolume.TrendRowsTotals | optimization/historic_volume.py:323-327 | sorting keeps every pair's total |
| HistoricVolume.UnsortedTotals | optimization/historic_volume.py:308-323 | before the sort, the k-th row is the k-th pair's with its total |
| HistoricVolume.ReorderedTotals | optimization/historic_volume.py:327 | a reordering keeps the pairs' totals |
| HistoricVolume.ParticipationRate | optimization/historic_volume.py:400-402 | within 0.05 of weeks participated over weeks, times 100 |
| HistoricVolume.ParticipationFor | optimization/historic_volume.py:381-402 | one 0/1 cell per week, their count and the rate |
| HistoricVolume.CarrierLaneParticipation | optimization/historic_volume.py:332-404 | empty input gives nothing; non-empty input without the week column is an error; otherwise one row per carrier-lane pair of the window |
| HistoricVolume.ParticipationRows | optimization/historic_volume.py:381-402 | the k-th row is the k-th pair's participation |
| HistoricVolume.ActiveInIff | optimization/historic_volume.py:381-390 | a cell is 1 exactly when the carrier served the lane in that week, 0 otherwise |
| HistoricVolume.ParticipationWeeks | optimization/historic_volume.py:399 | a pair of the window participated in at least one and at most all weeks |
| HistoricVolume.ActiveWeek | optimization/historic_volume.py:381-390 | every pair of the window has a week it was active in |
| HistoricVolume.ParticipationBounds | optimization/historic_volume.py:381-402 | every row participated in at least one week and no more than the window's weeks |
| HistoricVolume.ParticipationRowsBounds | optimization/historic_volume.py:381-402 | the same bounds and one cell per week for every row |
| HistoricVolume.OneRowPerKey | optimization/historic_volume.py:209-225 | every complete group of the history has exactly one result row |
| HistoricVolume.PivotRowsKept | optimization/historic_volume.py:300-317 | every history row with a complete pivot key and a week is pivoted |
| HistoricVolume.ShareRowWeeks | optimization/historic_volume.py:209-214 | a group's active weeks are between 1 and the window's weeks |
| HistoricVolume.GroupWeeks | optimization/historic_volume.py:209-214 | a non-empty group has between 1 and the window's weeks distinct weeks |
| CascadeGroup.ValidCodes | optimization/cascading_logic.py:471 | exactly the non-NaN carriers, no more of them than carriers, distinct when the carriers are |
| CascadeGroup.SortCodes | optimization/cascading_logic.py:472 | a permutation of the codes (same members, distinct when they are) in ascending string order |
| CascadeGroup.Enumerate | optimization/cascading_logic.py:472 | ranks exactly the sorted codes, each between 1 and their number |
| CascadeGroup.EnumerateDistinct | optimization/cascading_logic.py:472 | without duplicates, the k-th code gets rank k + 1 |
| CascadeGroup.AlphabeticalRanksSpec | optimization/cascading_logic.py:458-472 | exactly the non-NaN carriers are ranked, from 1 up, alphabetically earlier gets a smaller rank, and no two carriers share a rank |
| CascadeGroup.LpGroup | optimization/cascading_logic.py:463-466 | a row is kept exactly when it is an LP row whose group columns match the key |
| CascadeGroup.ByLpVolume | optimization/cascading_logic.py:477 | a permutation of the group's LP rows with non-increasing counts |
| CascadeGroup.LpRanksDomain | optimization/cascading_logic.py:480-482 | exactly the non-NaN group carriers present in the sorted LP rows get an LP rank |
| CascadeGroup.LpRankIsLast | optimization/cascading_logic.py:480-482 | a carrier's LP rank is the 1-based position of its last row in the sorted LP rows |
| CascadeGroup.LpRankPositions | optimization/cascading_logic.py:480-482 | every LP rank is the position of a row of that carrier |
| CascadeGroup.FillFromSpec | optimization/cascading_logic.py:484-489 | the fill keeps every rank given, ranks every carrier, and gives new carriers distinct ranks from the starting rank on |
| CascadeGroup.FillFromOrder | optimization/cascading_logic.py:486-489 | among distinct carriers, an unranked one listed earlier gets a smaller rank |
| CascadeGroup.RankCarriersFromLp | optimization/cascading_logic.py:443-495 | the method returns `GroupRanks`, the specification of `_rank_carriers_from_lp` |
| CascadeGroup.LpRanksSpec | optimization/cascading_logic.py:474-491 | with LP rows for the group every carrier is ranked, LP ranks are kept and are positions of that carrier, and the others get distinct ranks after the number of LP-ranked carriers |
| CascadeGroup.LpRankCollision | optimization/cascading_logic.py:480-489 | an LP row of a carrier outside the group, listed first, makes a missing carrier share rank 2 with an LP-ranked one |
| CascadeGroup.IntendedRanksDistinct | optimization/cascading_logic.py:484-489 | the corrected ranking ranks every carrier, keeps the LP ranks, puts every other carrier after all of them, and gives distinct ranks |
| CascadeGroup.HistGroup | optimization/cascading_logic.py:512-524 | the share rows kept are exactly those of a successful share table that match the group |
| CascadeGroup.ShareOfAbsent | optimization/cascading_logic.py:529-530 | a carrier without a share row gets 0 |
| CascadeGroup.ShareOfLast | optimization/cascading_logic.py:529-530 | otherwise a carrier gets the percentage of its last row |
| CascadeGroup.HistoricalPercentagesSpec | optimization/cascading_logic.py:498-532 | a percentage for exactly the given carriers; 0 for NaN, for no share data and for carriers without a row; otherwise the last matching row's percentage |
| CascadeGroup.CarrierDataDomain | optimization/cascading_logic.py:304-307 | every carrier of the group, and only those, has an entry |
| CascadeGroup.CarrierDataLast | optimization/cascading_logic.py:304-307 | a carrier's entry is the group's last row of that carrier |
| CascadeGroup.CarrierDataKeyed | optimization/cascading_logic.py:304-307 | each entry is a row of its own carrier |
| CascadeAllocation.ValidPositions | optimization/cascading_logic.py:551 | the positions of the non-NaN carriers, each once |
| CascadeAllocation.RankOrder | optimization/cascading_logic.py:550-552 | every non-NaN carrier once, in non-decreasing rank (999 when unranked), ties in input order |
| CascadeAllocation.Cap | optimization/cascading_logic.py:566-574 | the first-pass cap is non-negative for a non-negative total and growth |
| CascadeAllocation.Caps | optimization/cascading_logic.py:563-574 | one cap per visited carrier, computed from its historical percentage |
| CascadeAllocation.FirstPassShares | optimization/cascading_logic.py:558-579 | one first-pass share per visited carrier, as the greedy walk gives it |
| CascadeAllocation.FirstPassBounds | optimization/cascading_logic.py:558-579 | what remains stays within [0, total]; each share is between 0 and its cap and not above what remained |
| CascadeAllocation.FirstPassConserves | optimization/cascading_logic.py:558-579 | the shares handed out plus what remains is the total, at every step |
| CascadeAllocation.FirstPassLeftover | optimization/cascading_logic.py:558-579 | what remains after k carriers is the total less their caps, or zero |
| CascadeAllocation.FirstPassGreedy | optimization/cascading_logic.py:558-579 | while volume remains, every earlier carrier got its full cap |
| CascadeAllocation.FirstPassSettled | optimization/cascading_logic.py:559-561 | once nothing remains, nothing changes and later carriers get zero |
| CascadeAllocation.CascadeShares | optimization/cascading_logic.py:558-697 | one fractional share per visited carrier |
| CascadeAllocation.CascadeSharesTotal | optimization/cascading_logic.py:558-697 | the fractional shares add up to the total |
| CascadeAllocation.CascadeSharesCapped | optimization/cascading_logic.py:612-645 | every carrier but the best-ranked stays within its cap; the best-ranked takes its share plus everything above the caps' sum |
| CascadeAllocation.CascadeSharesTop | optimization/cascading_logic.py:612-645 | the best-ranked carrier's share is its first-pass share plus the excess over all caps |
| CascadeAllocation.FirstPass | optimization/cascading_logic.py:558-610 | the first-pass loop sets each visited carrier's share, leaves others at 0, and conserves the total |
| CascadeAllocation.SecondPass | optimization/cascading_logic.py:612-645 | the second-pass loop changes only visited carriers, conserves allocated plus remaining, and leaves nothing when it starts from a consistent state |
| CascadeAllocation.ThirdPass | optimization/cascading_logic.py:647-697 | the overflow step fires exactly when more than 0.5 remains and some carrier is valid, and then adds the remainder to the best carrier only |
| CascadeAllocation.CascadeFractional | optimization/cascading_logic.py:550-697 | NaN carriers get 0; with no valid carrier everything is 0; for non-negative inputs the third pass never fires, the shares add up to the total and are the cascade shares |
| CascadeAllocation.CascadeInOrder | optimization/cascading_logic.py:558-697 | the three passes give 0 outside the visiting order and, for non-negative inputs, hand out exactly the total as non-negative shares |
| CascadeAllocation.Remainder | optimization/cascading_logic.py:701-702 | the remainders are the values less their integer parts |
| CascadeAllocation.RoundLargestRemainder | optimization/cascading_logic.py:699-709 | the rounded counts are the largest-remainder rounding of the allocation |
| CascadeAllocation.BumpInOrder | optimization/cascading_logic.py:704-708 | the bump loop raises the first `shortfall` carriers (clamped) of the remainder order by one and no other |
| CascadeAllocation.RoundingOrder | optimization/cascading_logic.py:704 | the carriers are bumped in non-increasing remainder order |
| CascadeAllocation.RoundingPreservesTotal | optimization/cascading_logic.py:699-709 | for a whole, non-negative total the rounded counts add up to it |
| CascadeAllocation.RoundingKeepsWholeEntries | optimization/cascading_logic.py:699-709 | a whole allocation keeps its value, and every count is within one of its fractional value |
| CascadeAllocation.CascadeAllocateVolume | optimization/cascading_logic.py:535-711 | counts are the largest-remainder rounding of the fractional cascade; NaN carriers get 0; for non-negative inputs no overflow happens and the fractional shares add up to the total |
| CascadeAllocation.CascadeMatchesShares | optimization/cascading_logic.py:612-645 | adding the first-pass leftover to the best-ranked carrier gives the fractional shares carrier by carrier |
| CascadeAllocation.Remainders | optimization/cascading_logic.py:701-702 | each allocation's fractional part over its truncation |
| CascadeAllocation.Bumps | optimization/cascading_logic.py:704-708 | how much rounding added to each carrier over its truncation |
| Cascading.Rows | optimization/cascading_logic.py:348-396 | one emitted row per slice, each built from its carrier's row, rank, percentages and notes |
| Cascading.RowsOf | optimization/cascading_logic.py:348-396 | the k-th row is its slice's carrier's row with the slice's count and IDs (its own IDs once the pool is empty) |
| Cascading.HandOutSlices | optimization/cascading_logic.py:348-362 | the loop makes one slice per carrier with a non-zero count, in order, with that count |
| Cascading.HandOutCounts | optimization/cascading_logic.py:348-362 | the slices' counts add up to the counts handed out |
| Cascading.HandOutCovers | optimization/cascading_logic.py:348-362 | every carrier with a non-zero count has a slice |
| Cascading.HandOutDistinct | optimization/cascading_logic.py:348-362 | distinct carriers give slices of distinct carriers |
| Cascading.HandOutTaken | optimization/cascading_logic.py:355-362 | the IDs the slices took, followed by what is left, are the pool |
| Cascading.NothingHandedOut | optimization/cascading_logic.py:348-362 | no slice leaves the whole pool |
| Cascading.FirstSliceTakes | optimization/cascading_logic.py:357-362 | with IDs in the pool, the first slice takes some |
| Cascading.BuildRows | optimization/cascading_logic.py:342-396 | the loop builds exactly the rows of the slices and leaves exactly the slices' leftover |
| Cascading.RowIds | optimization/cascading_logic.py:355-362 | the rows hold the IDs the slices took, or their carrier rows' own IDs once the pool is empty |
| Cascading.IdsOfSlicesBounds | optimization/cascading_logic.py:355-362 | the rows' IDs include every ID taken from the pool and come from the pool or the group's own IDs |
| Cascading.AddLeftover | optimization/cascading_logic.py:398-404 | the rows keep their number |
| Cascading.TakenWithLeftover | optimization/cascading_logic.py:398-404 | after the leftover goes to the first row, the taken IDs are the pool's |
| Cascading.DedupeCells | optimization/cascading_logic.py:411-425 | one cell per row |
| Cascading.DedupeCellsAt | optimization/cascading_logic.py:414-425 | each cell keeps, in order, its IDs not seen in earlier cells |
| Cascading.DedupeCellsIds | optimization/cascading_logic.py:411-425 | the IDs of the deduplicated cells are the first occurrences of all IDs, in order |
| Cascading.DedupeAcrossRows | optimization/cascading_logic.py:411-425 | the nested loop computes `DedupeCells` |
| Cascading.KeepUnseen | optimization/cascading_logic.py:420-424 | the inner loop keeps the IDs not seen before and adds them all to the seen set |
| Cascading.DedupeNext | optimization/cascading_logic.py:415-425 | one turn of the outer loop deduplicates exactly the next cell |
| Cascading.DedupedIds | optimization/cascading_logic.py:411-425 | after deduplication no ID occurs twice and the set of IDs is unchanged |
| Cascading.Recount | optimization/cascading_logic.py:427-438 | every row's percentage and totals are recomputed from the summed counts |
| Cascading.SharesSum | optimization/cascading_logic.py:430-432 | the new percentages add up to the counts' sum over the actual total, times 100 |
| Cascading.RecountShares | optimization/cascading_logic.py:429-432 | with a positive total the recomputed percentages add up to 100 |
| Cascading.RecountKeeps | optimization/cascading_logic.py:427-438 | the recount keeps counts, carriers, ID cells and what each row copies |
| Cascading.RowsKept | optimization/cascading_logic.py:348-396 | the rows have the slices' carriers and counts and are copies of the carrier rows |
| Cascading.LoopRowsKept | optimization/cascading_logic.py:342-404 | the rows' counts add up to the counts, every carrier with a count has a row, no other carrier does, none twice, each a copy of its carrier's row |
| Cascading.LoopRowsIds | optimization/cascading_logic.py:342-404 | with the carrier rows' IDs in the pool, the rows hold exactly the pool's IDs |
| Cascading.LoopAndLeftover | optimization/cascading_logic.py:342-404 | the method's rows have the properties of `LoopRowsKept` and `LoopRowsIds` |
| Cascading.CleanedKeeps | optimization/cascading_logic.py:409-438 | cleaning keeps counts, carriers and copies, and leaves the IDs without duplicates and with the same set |
| Cascading.CleanRows | optimization/cascading_logic.py:409-438 | the method computes `Cleaned` |
| Cascading.AssembleRows | optimization/cascading_logic.py:342-404 | the assembled rows keep the counts' total, cover every carrier with a count, and name only distinct group carriers |
| Cascading.CleanIfIds | optimization/cascading_logic.py:409-438 | with an IDs column the result has no duplicate ID and the same IDs; without it the rows are unchanged |
| Cascading.GroupIds | optimization/cascading_logic.py:283-291 | every collected ID is non-blank and trimmed |
| Cascading.IdPool | optimization/cascading_logic.py:283-298 | the pool has no duplicates and holds exactly the group's and the excluded rows' IDs, none without an IDs column |
| Cascading.GroupData | optimization/cascading_logic.py:303-307 | every carrier of the group has its own row in `carrier_data`, whose IDs are in the pool |
| Cascading.GroupCounts | optimization/cascading_logic.py:332-340 | one count per carrier; for non-negative inputs with a valid carrier they add up to the total and NaN carriers get 0 |
| Cascading.CarrierCounts | optimization/cascading_logic.py:303-340 | the counts and carrier data the row loop needs, with the properties above |
| Cascading.AllocateGroup | optimization/cascading_logic.py:282-440 | distinct carriers; each row a copy of its carrier's row with rank, percentages and notes; for non-negative inputs the counts add up to the group's plus the excluded rows' total; the IDs cover the pool |
| Cascading.CascadingAllocateSingleGroup | optimization/cascading_logic.py:217-440 | nothing for an empty group or a zero total; an error without a count or carrier column and only then; otherwise the group's rows as above |
| Cascading.Allocatable | optimization/cascading_logic.py:104-121 | a row is kept exactly when its carrier is not excluded |
| Cascading.ExcludedRows | optimization/cascading_logic.py:104-121 | a row is set aside exactly when its carrier is excluded |
| Cascading.SplitKeepsCounts | optimization/cascading_logic.py:104-121 | the kept and set-aside rows' counts add up to the input's |
| Cascading.FrontColumns | optimization/cascading_logic.py:132-138 | Lane plus whichever of Category, SSL and Vessel are present, Category first |
| Cascading.CascadeGroupColumns | optimization/cascading_logic.py:130-144 | Lane plus the present optional grouping columns, Category first and Week Number last |
| Cascading.ExcludedOfGroup | optimization/cascading_logic.py:181-189 | the set-aside rows with the group's key |
| Cascading.AllocateKey | optimization/cascading_logic.py:180-207 | a group's rows copy its carrier rows and, when volume is conserved, add up to the group's plus its excluded rows' total |
| Cascading.AllocateGroups | optimization/cascading_logic.py:176-212 | no result row has an excluded carrier, and the counts add up to all groups' totals |
| Cascading.AllocateAllGroups | optimization/cascading_logic.py:176-214 | no result row has an excluded carrier; with non-negative inputs the counts add up to the allocatable total plus the excluded rows of allocatable groups |
| Cascading.CascadingAllocateWithConstraints | optimization/cascading_logic.py:28-214 | empty input gives nothing; no Lane column is an error; no result row has an excluded carrier; counts are conserved as above |
| Cascading.ConservingSplit | optimization/cascading_logic.py:104-121 | volume conserved over the whole table is conserved over the allocatable rows plus the excluded rows |
| Cascading.GroupConserves | optimization/cascading_logic.py:176-207 | a group with rows has a carrier, and conserving the table conserves each group with its excluded rows |
| Cascading.KeptCopies | optimization/cascading_logic.py:348-362 | every allocated row is a copy of its carrier's original row |
| Cascading.OwnIds | optimization/cascading_logic.py:283-298 | every carrier's own IDs are among the group's IDs |
| LinearProgramming.PrepareLpGroupColumns | optimization/linear_programming.py:31-39 | succeeds exactly when some default grouping column is present; the result is the present default columns in default order; otherwise the error message naming all of them |
| LinearProgramming.Lowest | optimization/linear_programming.py:59 | the minimum is an element and no element is below it |
| LinearProgramming.Highest | optimization/linear_programming.py:60 | the maximum is an element and no element is above it |
| LinearProgramming.Fraction | optimization/linear_programming.py:67 | the fraction times the span is the distance from the minimum; it lies in [0, 1] for a value in range, 0 at the minimum and 1 at the maximum |
| LinearProgramming.FractionGrows | optimization/linear_programming.py:67 | the fraction grows strictly with the value |
| LinearProgramming.Normalize | optimization/linear_programming.py:42-73 | same length, every value in [0, 1]; 0.5 everywhere when all values are equal; otherwise the lowest maps to 0 (1 when higher is better) and the highest to 1 (0) |
| LinearProgramming.NormalizeKeepsOrder | optimization/linear_programming.py:59-73 | a value is below another exactly when its normalised value is below (above, when higher is better) the other's |
| LinearProgramming.RescaledOrder | optimization/linear_programming.py:67-71 | rescaling keeps the strict order of two values, or reverses it when higher is better, in both directions |
| LinearProgramming.NormalizeMonotone | optimization/linear_programming.py:59-73 | normalising never reverses the order of two values (flips it when higher is better) and keeps a strict order strict, including the all-equal case |
| LinearProgramming.Weigh | optimization/linear_programming.py:129-136 | fails with the source's message exactly when the weights add up to zero; otherwise the weights add up to one and keep their ratio |
| LinearProgramming.CostOnly | optimization/linear_programming.py:144-149 | with a performance column the weights are unchanged; without one, normalised non-negative weights become cost 1, performance 0; the sum stays one |
| LinearProgramming.WeightsAddUpToOne | optimization/linear_programming.py:129-149 | the weights the objective uses add up to one, are (1, 0) without a performance column, and lie in [0, 1] for non-negative inputs |
| LinearProgramming.MissingColumns | optimization/linear_programming.py:139-140 | a column is listed exactly when it is required and absent |
| LinearProgramming.Clip01 | optimization/linear_programming.py:159 | the result is in [0, 1] and equals a value already in range |
| LinearProgramming.WorkingRow | optimization/linear_programming.py:153-162 | the grouping cells and count are kept, a NaN rate reads 0, the IDs cell is never NaN and parses to the same IDs, the performance is present and in [0, 1] |
| LinearProgramming.Working | optimization/linear_programming.py:153-162 | the working table is the input's rows, each converted as above |
| LinearProgramming.GroupIds | optimization/linear_programming.py:236-241 | every collected ID is non-blank and trimmed |
| LinearProgramming.CollectIds | optimization/linear_programming.py:236-241 | the loop collects exactly the group's IDs, cell after cell |
| LinearProgramming.GroupTotal | optimization/linear_programming.py:224-248 | the total is the number of IDs when there is any, else the summed count |
| LinearProgramming.Carriers | optimization/linear_programming.py:231 | no duplicates; a carrier is listed exactly when some row has it; non-empty for a non-empty group; each has a `carrier_data` entry |
| LinearProgramming.Rates | optimization/linear_programming.py:279 | one rate per carrier, in carrier order, read from `carrier_data` |
| LinearProgramming.ArgMin | optimization/linear_programming.py:317 | the first position of least value |
| LinearProgramming.Cheapest | optimization/linear_programming.py:317 | a carrier of the group whose rate is not above any other's |
| LinearProgramming.CheapestIsLeast | optimization/linear_programming.py:317 | the cheapest carrier's rate is at most every carrier's |
| LinearProgramming.Significant | optimization/linear_programming.py:333-336 | each share is a carrier with its solver amount of at least 0.5; every carrier with at least 0.5 is there |
| LinearProgramming.SignificantOnly | optimization/linear_programming.py:333-336 | with one carrier at 0.5 or more, that carrier is the only share |
| LinearProgramming.SignificantNone | optimization/linear_programming.py:338 | no carrier at 0.5 or more gives no share |
| LinearProgramming.SignificantDistinct | optimization/linear_programming.py:334-336 | the significant shares name distinct carriers |
| LinearProgramming.Shares | optimization/linear_programming.py:331-341 | there is always at least one share, and every share is a group carrier or the cheapest carrier |
| LinearProgramming.SharesOf | optimization/linear_programming.py:331-341 | each share is a significant carrier with its amount, or the cheapest carrier with the whole total when none is significant; every significant carrier is there once; amounts are non-negative |
| LinearProgramming.HandOutRows | optimization/linear_programming.py:349-371 | the loop's rows and leftover IDs are the fold `HandOut` over all shares |
| LinearProgramming.HandOutFollowsShares | optimization/linear_programming.py:349-371 | one row per share whose rounded count is not zero, in order, each the carrier's row with the rounded count |
| LinearProgramming.HandStepInOrder | optimization/linear_programming.py:363-369 | a share the pool covers keeps the rows' IDs plus the leftover equal to the pool and shortens the leftover by its count |
| LinearProgramming.HandOutInOrder | optimization/linear_programming.py:349-371 | while the rounded counts stay within the pool, rows' IDs plus leftover are the pool and the leftover is the pool less the counts |
| LinearProgramming.StripSeparators | optimization/linear_programming.py:376 | never longer than its input; leaves a string with no separator at either end unchanged |
| LinearProgramming.AddLeftover | optimization/linear_programming.py:373-377 | only the first row's IDs cell can change |
| LinearProgramming.LeftoverKeepsPool | optimization/linear_programming.py:373-377 | after the leftover is added, the rows hold the pool's IDs as a multiset, and exactly the pool in order when nothing was left |
| LinearProgramming.RecountRow | optimization/linear_programming.py:386-401 | the count becomes the number of IDs in the row's cell |
| LinearProgramming.Recount | optimization/linear_programming.py:383-401 | with an IDs column every row is recounted, otherwise the rows are unchanged |
| LinearProgramming.RecountKeepsIds | optimization/linear_programming.py:383-401 | the recount keeps the rows' IDs and makes every count the number of IDs held |
| LinearProgramming.IdsHandedOut | optimization/linear_programming.py:343-401 | with rounded counts within the pool, every row's count is its number of IDs and the rows hold the pool's IDs, each as often as in the pool |
| LinearProgramming.PoolUsedUp | optimization/linear_programming.py:343-401 | when the rounded counts use up the pool exactly, the rows hold the pool in order, one per kept share, with its carrier and rounded count |
| LinearProgramming.PoolOverrun | optimization/linear_programming.py:363-369 | when the pool runs out before the last share, the last row keeps its carrier row's own IDs, so the rows hold the pool followed by those IDs again |
| LinearProgramming.RecountFollows | optimization/linear_programming.py:383-401 | recounting rows that hold as many IDs as their count keeps each carrier and rounded count |
| LinearProgramming.CountsWithoutIds | optimization/linear_programming.py:349-360 | without an IDs column the rows are the kept shares' carrier rows with the rounded counts, in order |
| LinearProgramming.AllocatedRowsOf | optimization/linear_programming.py:349-360 | one row per kept share, with that share's carrier and the grouping cells of its carrier's row |
| LinearProgramming.OptimizeSingleGroup | optimization/linear_programming.py:204-403 | the method's result is `SingleGroup`, the specification of `_optimize_single_group` |
| LinearProgramming.OptimalRows | optimization/linear_programming.py:345-403 | the rows the shares make (IDs handed out, leftover added, counts recounted), nothing when there are none |
| LinearProgramming.WholeGroupIs | optimization/linear_programming.py:250-266 | a group with one carrier gives exactly the whole-group row |
| LinearProgramming.SingleCarrierTakesAll | optimization/linear_programming.py:250-266 | one row, the group's first row, with the only carrier, the whole total (the number of IDs when there are any) and every ID of the group |
| LinearProgramming.OneCarrier | optimization/linear_programming.py:231-251 | a group with one carrier has it on every row |
| LinearProgramming.FallbackRows | optimization/linear_programming.py:314-328 | at most one row |
| LinearProgramming.FallbackRowsOf | optimization/linear_programming.py:314-328 | one row exactly when the cheapest carrier is not NaN; it has that carrier, the whole total, the rate times the total and every ID of the group, and copies a group row |
| LinearProgramming.FallbackIs | optimization/linear_programming.py:314-328 | a failed solve of a group with several carriers gives the fallback rows of the cheapest carrier |
| LinearProgramming.FallbackToCheapest | optimization/linear_programming.py:314-328 | a failed solve gives at most one row, none when the cheapest carrier is NaN, else the least-rate carrier with the whole total and every ID |
| LinearProgramming.OptimalIs | optimization/linear_programming.py:330-380 | an optimal solve gives the allocated rows of the shares, or nothing when there is no row |
| LinearProgramming.SharedRowCarriers | optimization/linear_programming.py:330-371 | every row is a carrier of the group given at least 0.5, or the cheapest when none is, with its carrier row's grouping cells |
| LinearProgramming.SharedRowsDistinct | optimization/linear_programming.py:349-371 | no carrier has two rows |
| LinearProgramming.SharedRowsCover | optimization/linear_programming.py:349-371 | every carrier given at least 0.5 whose amount does not round to zero has a row |
| LinearProgramming.OptimalCarriers | optimization/linear_programming.py:330-403 | with an optimal solve, each row is a significant carrier (or the cheapest when none is) and no carrier has two rows |
| LinearProgramming.OptimalCovers | optimization/linear_programming.py:330-403 | with an optimal solve, every significant carrier whose amount does not round to zero has a row |
| LinearProgramming.OptimalRowsInGroup | optimization/linear_programming.py:330-403 | the rows of an optimal solve agree with group rows on grouping cells and carrier |
| LinearProgramming.RowsStayInGroup | optimization/linear_programming.py:204-403 | every row a group gives agrees with one of the group's rows on grouping cells and carrier |
| LinearProgramming.WholeRowInGroup | optimization/linear_programming.py:250-266 | the single carrier's row agrees with the group's first row |
| LinearProgramming.FallbackInGroup | optimization/linear_programming.py:314-328 | the fallback row agrees with a group row |
| LinearProgramming.OneShareRow | optimization/linear_programming.py:338-371 | one share of the whole total gives one row of that carrier with the whole total and, with IDs, the pool in order |
| LinearProgramming.VertexSolution | optimization/linear_programming.py:291-403 | a solver vertex giving one carrier everything yields exactly that carrier's row with the whole total and every ID in order |
| LinearProgramming.Performances | optimization/linear_programming.py:282-283 | one performance per carrier |
| LinearProgramming.WeightedWithin | optimization/linear_programming.py:301-305 | a coefficient of two scores in [0, 1] with weights adding up to one lies in [0, 1] |
| LinearProgramming.WeightedGrows | optimization/linear_programming.py:301-305 | a coefficient grows with both scores, strictly with the cost score under a positive cost weight |
| LinearProgramming.CostScores | optimization/linear_programming.py:279-280 | one normalised rate per carrier |
| LinearProgramming.PerfCosts | optimization/linear_programming.py:282-289 | one performance cost per carrier, each in [0, 1] |
| LinearProgramming.Objective | optimization/linear_programming.py:300-305 | one coefficient per carrier |
| LinearProgramming.ObjectiveWithin | optimization/linear_programming.py:278-305 | with weights adding up to one, every coefficient lies in [0, 1] |
| LinearProgramming.ObjectiveFavoursBetter | optimization/linear_programming.py:278-305 | a carrier no dearer and performing no worse never gets a higher coefficient; strictly cheaper under a positive cost weight, a strictly lower one |
| LinearProgramming.GroupRows | optimization/linear_programming.py:168-183 | a group's rows agree with its own rows on grouping cells and carrier |
| LinearProgramming.GroupedRowsStep | optimization/linear_programming.py:168-183 | one more group appends exactly that group's rows |
| LinearProgramming.GroupedRowsKeyed | optimization/linear_programming.py:168-189 | each collected row has one of the group keys and agrees with a working row |
| LinearProgramming.RowFromInput | optimization/linear_programming.py:153-189 | each collected row has the key of an input group and agrees with an input row |
| LinearProgramming.PerGroupIs | optimization/linear_programming.py:169-183 | a group contributes what `_optimize_single_group` returns, nothing for None |
| LinearProgramming.AllocateGroups | optimization/linear_programming.py:167-183 | the loop's rows are the groups' rows in key order |
| LinearProgramming.Labelled | optimization/linear_programming.py:185-201 | no rows give the input's columns and no label; otherwise the rows labelled with the weights |
| LinearProgramming.CarrierAllocation | optimization/linear_programming.py:76-201 | an empty table gives an empty result; zero weights and missing required columns give the source's errors in that order; success exactly when all checks pass |
| LinearProgramming.OptimizeCarrierAllocation | optimization/linear_programming.py:76-201 | the method returns `CarrierAllocation` |
| LinearProgramming.LabelWeights | optimization/linear_programming.py:185-201 | a successful result keeps the input's columns and its label's weights add up to one |
| LinearProgramming.RowsComeFromInput | optimization/linear_programming.py:76-201 | every result row agrees with an input row on grouping cells and carrier |
| LinearProgramming.Kept | optimization/linear_programming.py:352-353 | exactly the shares whose rounded count is not zero make a row |
| LinearProgramming.KeptDistinct | optimization/linear_programming.py:348-371 | the rows made name distinct carriers |
| LinearProgramming.TakeIds | optimization/linear_programming.py:363-366 | a row's IDs cell parses back to the m IDs taken from the pool's front |
| LinearProgramming.TakeOrder | optimization/linear_programming.py:363-366 | taking m IDs keeps the rows' IDs followed by the leftover equal to the pool |
| LinearProgramming.TakeInOrder | optimization/linear_programming.py:363-368 | a row that takes m IDs keeps the hand-out in pool order |
| LinearProgramming.TakeCounts | optimization/linear_programming.py:355-366 | a row whose count equals its parsed IDs keeps every row's count equal to its IDs |
| LinearProgramming.LeftoverJoins | optimization/linear_programming.py:373-377 | the leftover IDs are appended to the first row's IDs, joined by ", " |
| LinearProgramming.LeftoverFirst | optimization/linear_programming.py:373-377 | after the leftover is added, the first row's IDs are its own followed by the leftover |
| LinearProgramming.LeftShrinks | optimization/linear_programming.py:363-366 | the hand-out never leaves more IDs than the pool had |
| LinearProgramming.PerGroupAgrees | optimization/linear_programming.py:169-183 | every group's rows are what the single-group optimisation returns for it |
| Groups.KeyLessIsOrder | optimization/cheapest_logic.py:142 | the order groupby sorts keys by is a strict total order |
| Groups.GroupKeys | optimization/cheapest_logic.py:142 | one key per group whose key cells are all present, distinct and ascending; rows with a missing key cell form no group |
| Groups.GroupKeysFromRows | optimization/cheapest_logic.py:142 | every group key is some row's key |
| Groups.AllGroupKeys | optimization/linear_programming.py:168 | distinct keys of all rows, missing cells included, ascending |
| Groups.SumGroupsCovers | optimization/cheapest_logic.py:145-150 | when every row's key is among the groups, the group totals add up to the rows' total |
| Groups.GroupSums | optimization/cheapest_logic.py:145-150 | one total per group, the sum of its rows' counts |
| Groups.GroupSumsTotal | optimization/cheapest_logic.py:145-150 | the per-group totals add up to the sum over the groups |
| Groups.SumGroupsOfPart | optimization/historic_volume.py:209-221 | summing the finer groups inside a coarser one gives the coarser group's total |
| Groups.CompleteKeys | optimization/cheapest_logic.py:142 | every listed key is complete and some row's; every row with a complete key is listed |
| Groups.SortKeys | optimization/cheapest_logic.py:142 | the keys, distinct and ascending |
| Groups.KeysCover | optimization/linear_programming.py:168 | every row's key is among the keys |
| Selection.PrepareGroupColumns | optimization/cheapest_logic.py:49-59 | an error exactly when no default or extra grouping column is present; otherwise exactly the present defaults, in order, followed by the present extras, without duplicates |
| Selection.AddExtras | optimization/performance_logic.py:29-30 | the present extras not already chosen are appended after the defaults, which stay in front |
| Selection.SortOrder | optimization/cheapest_logic.py:139 | a permutation of the rows sorted by their sort keys |
| Selection.Sorted | optimization/cheapest_logic.py:139 | the sorted rows are the input rows, reordered by that permutation |
| Selection.SortedGroupMultiset | optimization/cheapest_logic.py:139-148 | sorting then grouping keeps exactly the group's rows, and their count total |
| Selection.SortedGroupInOrder | optimization/cheapest_logic.py:139-142 | within a group the sorted rows come in sort-key order |
| Selection.Heads | optimization/performance_logic.py:129 | the positions that start a group with a complete key, ascending |
| Selection.WinnersOnePerGroup | optimization/performance_logic.py:126-129 | one winner per group with a complete key, no group twice, no group missed |
| Selection.WinnerOfRow | optimization/performance_logic.py:129 | every row with a complete key has its group's winner |
| Selection.WinnerIsBest | optimization/performance_logic.py:126-129 | no other row of the group sorts before the winner |
| Selection.JoinCellsSnoc | optimization/cheapest_logic.py:155-159 | joining cells adds each non-blank cell after ", ", and skips blank ones |
| Selection.ParseJoinCells | optimization/cheapest_logic.py:155-175 | parsing the joined cells gives all the group's container IDs, in order |
| Selection.ParseConcat | optimization/cheapest_logic.py:157-172 | parsing `a + ", " + b` is parsing `a` then `b` |
| Selection.WholeGroup | optimization/cheapest_logic.py:144-195 | with an IDs column the chosen row gets the joined IDs and their number as its count; without it, the group's summed count; totals are rate times count |
| Selection.WholeGroupKey | optimization/cheapest_logic.py:142-152 | the chosen row keeps its group key |
| Selection.Group | optimization/performance_logic.py:126-129 | a group holds exactly the rows with its key |
| Selection.HeadOfGroup | optimization/performance_logic.py:129 | every row with a complete key has a group head no later than it with the same key |
| Selection.HeadsDistinct | optimization/performance_logic.py:129 | group heads have distinct keys |
| Selection.RowsWithKeyMultiset | optimization/performance_logic.py:126-129 | a group keeps every row of its key as often as it occurs and no other |
| CheapestLogic.Ranks | optimization/cheapest_logic.py:134-139 | one sort key per row: cheapest rate with missing last, then carrier text |
| CheapestLogic.FirstSome | optimization/cheapest_logic.py:142 | the first present value of a column in the group, none when all are missing |
| CheapestLogic.FirstSomeIsFirst | optimization/cheapest_logic.py:142 | the value comes from a row before which every row has the column missing |
| CheapestLogic.FirstValidKey | optimization/cheapest_logic.py:142 | the merged first row keeps the group key |
| CheapestLogic.FirstValidCell | optimization/cheapest_logic.py:142 | a cell present in the group's first row is the merged row's |
| CheapestLogic.GroupNonEmpty | optimization/cheapest_logic.py:139-142 | every group key has at least one sorted row, the first with that key |
| CheapestLogic.CheapestRows | optimization/cheapest_logic.py:142-195 | one output row per group key, in key order, each the group's merged cheapest row |
| CheapestLogic.AllocateToCheapestCarrier | optimization/cheapest_logic.py:62-209 | empty input gives an empty scenario; missing rate, carrier or count column is an error, checked in that order; missing grouping columns is an error; otherwise one row per group as above |
| CheapestLogic.CheapestRowKey | optimization/cheapest_logic.py:142-152 | each output row carries its group's key |
| CheapestLogic.CheapRankMeaning | optimization/cheapest_logic.py:134-139 | a row sorting no later than another has a cheapest rate at least as low, or the other has none |
| CheapestLogic.OneRowPerGroup | optimization/cheapest_logic.py:142-152 | output keys are complete, strictly ascending and cover every row with a complete key |
| CheapestLogic.FirstIsCheapest | optimization/cheapest_logic.py:139-142 | the first row of a sorted group has the lowest cheapest rate |
| CheapestLogic.GroupInOrder | optimization/cheapest_logic.py:139-142 | the first row of a sorted group sorts no later than any other |
| CheapestLogic.MergedFromFirst | optimization/cheapest_logic.py:142 | the output takes the first row's rate and, where present, its carrier |
| CheapestLogic.NoCheaperRow | optimization/cheapest_logic.py:139-142 | no row of the group has a lower cheapest rate than the first |
| CheapestLogic.CheapestRateIsGroupMinimum | optimization/cheapest_logic.py:134-142 | the output rate is missing only when the whole group's is, and otherwise is the group's minimum |
| CheapestLogic.CarrierOffersCheapestRate | optimization/cheapest_logic.py:134-142 | with every carrier present, the chosen carrier has a row in the group with the output rate |
| CheapestLogic.CheapestTakesGroupVolume | optimization/cheapest_logic.py:144-177 | the output count is the group's summed count, or with an IDs column the number of its container IDs |
| PerformanceLogic.PerformanceRank | optimization/performance_logic.py:98-126 | the sort key has performance descending, then cost and rate when present, then carrier |
| PerformanceLogic.Ranks | optimization/performance_logic.py:98-126 | one sort key per row |
| PerformanceLogic.WinnerPositions | optimization/performance_logic.py:126-129 | the winners are rows of the input |
| PerformanceLogic.WinnerRows | optimization/performance_logic.py:129-180 | one output row per winner, built from the winner and its group |
| PerformanceLogic.AllocateToHighestPerformance | optimization/performance_logic.py:39-210 | empty input gives an empty scenario; missing performance, carrier or count column is an error, checked in that order; missing grouping columns is an error; otherwise one row per group |
| PerformanceLogic.CarrierExtraAccepted | optimization/performance_logic.py:87 | with the carrier column present the carrier extra makes the grouping columns succeed |
| PerformanceLogic.OneRowPerGroup | optimization/performance_logic.py:126-139 | output keys are complete, distinct and cover every row with a complete key |
| PerformanceLogic.WinnerSortsFirst | optimization/performance_logic.py:126-129 | no row of the group sorts strictly before the winner |
| PerformanceLogic.PerformanceRankMeaning | optimization/performance_logic.py:98-126 | a row sorting no later than another has at least its performance, or the other has none; on equal performance the cost decides |
| PerformanceLogic.WinnerHasBestPerformance | optimization/performance_logic.py:98-129 | the winner's performance is at least every other group row's |
| PerformanceLogic.WinnerTakesGroupVolume | optimization/performance_logic.py:131-168 | the winner's count is the group's summed count, or with an IDs column the number of its container IDs |
| PerformanceCalculator.ScoreSumsWithin | components/performance_calculator.py:169-173 | a sum of scores in [lo, hi] lies between lo and hi times their number |
| PerformanceCalculator.WeightedSumsWithin | components/performance_calculator.py:157-161 | a count-weighted sum of scores in [lo, hi] lies between lo and hi times the total count |
| PerformanceCalculator.AverageWithinScores | components/performance_calculator.py:155-174 | a carrier's weighted (or simple-mean fallback) score lies within the range of its scores |
| PerformanceCalculator.Scored | components/performance_calculator.py:150-153 | exactly the carrier's rows that have a score |
| PerformanceCalculator.Averages | components/performance_calculator.py:149-178 | after visiting some carriers, exactly those with a score are in the dictionary, each with its average |
| PerformanceCalculator.WeightedPerformance | components/performance_calculator.py:129-180 | exactly the carriers with some scored row are keys; each maps to its count-weighted average, the simple mean when the volume is 0 or there is no count column |
| PerformanceCalculator.AveragesStep | components/performance_calculator.py:149-178 | one more carrier adds its entry when it has scores, nothing otherwise |
| PerformanceCalculator.GetCarrierWeightedPerformance | components/performance_calculator.py:129-180 | the loop fills the dictionary `WeightedPerformance` describes |
| PerformanceCalculator.ZeroVolumeScoreIsLost | components/performance_calculator.py:41-46 | as written, a carrier whose scored rows all have count 0 gets no usable score (0/0) |
| PerformanceCalculator.ZeroVolumeExample | components/performance_calculator.py:41-46 | one scored row of count 0 with score 70: the inline code gives no score, the corrected one gives 70 |
| PerformanceCalculator.CarrierScoreWithinScores | components/performance_calculator.py:36-49 | the corrected per-carrier score lies within the carrier's scores |
| PerformanceCalculator.CarrierScoreAgrees | components/performance_calculator.py:36-49 | whenever the inline score is defined and the volume positive, the corrected score equals it |
| PerformanceCalculator.ScoresOver | components/performance_calculator.py:36-49 | after some carriers, each visited carrier maps to its score (0 without scores) |
| PerformanceCalculator.ScoresStep | components/performance_calculator.py:37-49 | one more carrier adds exactly its score |
| PerformanceCalculator.CarrierScores | components/performance_calculator.py:36-49 | every carrier with a row, and only those, maps to its score |
| PerformanceCalculator.ComputeCarrierScores | components/performance_calculator.py:36-49 | the loop fills exactly `CarrierScores` |
| PerformanceCalculator.CarrierScoresMatchWeighted | components/performance_calculator.py:36-49 | with a count column the main calculation's carrier scores equal `get_carrier_weighted_performance`'s, missing entries read as 0 |
| PerformanceCalculator.Offers | components/performance_calculator.py:197-215 | one offer per carrier of the group |
| PerformanceCalculator.OffersLastWins | components/performance_calculator.py:199-215 | a carrier's offer comes from its last row in the group: its score if present, else the weighted average, else 0 |
| PerformanceCalculator.OffersStep | components/performance_calculator.py:199-215 | one more row overwrites its carrier's offer |
| PerformanceCalculator.CollectOffers | components/performance_calculator.py:197-215 | the loop gives the carriers in first-seen order and their offers |
| PerformanceCalculator.ArgMax | components/performance_calculator.py:218-219 | the first position holding the maximum |
| PerformanceCalculator.BestEntry | components/performance_calculator.py:217-225 | a best carrier among the group's carriers |
| PerformanceCalculator.BestPerformer | components/performance_calculator.py:182-227 | no data exactly for an empty group |
| PerformanceCalculator.LastRowOfCarrierDecides | components/performance_calculator.py:211-219 | rows A 90, B 50, A 10: A's last row overwrites its offer, so B wins with 50 |
| PerformanceCalculator.CollectedBest | components/performance_calculator.py:217-227 | a best carrier exists exactly when some carrier was seen, and it is one of them |
| PerformanceCalculator.FindBestPerformer | components/performance_calculator.py:182-227 | the method returns `BestPerformer`, with CPC chosen by the rate type |
| PerformanceCalculator.EarlierKey | components/performance_calculator.py:218 | first-seen order of carriers follows their first rows |
| PerformanceCalculator.BestPerformerIsBest | components/performance_calculator.py:203-227 | the best carrier's offer is at least every other carrier's, and it is strictly above every carrier seen before it |
| PerformanceCalculator.PerfGroupColumns | components/performance_calculator.py:53-55 | Lane and Week Number, plus Category when present |
| PerformanceCalculator.GroupDetails | components/performance_calculator.py:103-125 | one detail per row of a group that has a best carrier |
| PerformanceCalculator.GroupDetailsStep | components/performance_calculator.py:103-125 | the details come in row order, each describing its row |
| PerformanceCalculator.AppendGroupDetails | components/performance_calculator.py:103-125 | the loop appends exactly the group's details |
| PerformanceCalculator.AddGroup | components/performance_calculator.py:57-125 | a group with data adds best rate times group volume to the cost and its details; one without adds nothing |
| PerformanceCalculator.CalculatePerformanceOptimization | components/performance_calculator.py:8-127 | without a score column the result is (0, []); a KeyError exactly when the table lacks the carrier, lane or week column, the count column while some carrier has a score, or the count and rate columns while there is a group; otherwise the cost and details accumulated over the groups in key order |
| PerformanceCalculator.AddGroups | components/performance_calculator.py:57-125 | the group loop gives the cost and details summed over the groups |
| PerformanceCalculator.GroupHypotheticals | components/performance_calculator.py:99-117 | a group's hypothetical costs add up to the best rate times its volume |
| PerformanceCalculator.CostIsSumOfHypotheticalCosts | components/performance_calculator.py:95-127 | the total cost is the sum of all details' hypothetical costs |
| PerformanceCalculator.EveryDetailDescribesARow | components/performance_calculator.py:103-125 | every detail describes some input row of its group |
| PerformanceCalculator.DetailsCount | components/performance_calculator.py:57-125 | one detail per row of the visited groups |
| PerformanceCalculator.OneDetailPerRow | components/performance_calculator.py:57-125 | one detail per input row whose grouping cells are present |
| ContainerTracer.ParseIds | components/container_tracer.py:12-28 | every ID produced is non-empty and already stripped |
| ContainerTracer.ParseIdsAgree | components/container_tracer.py:12-28 | the loop method gives the same IDs as the comma-split definition |
| ContainerTracer.IdLists | components/container_tracer.py:73-79 | one ID list per baseline row, parsed from its Container Numbers cell |
| ContainerTracer.ContextCell | components/container_tracer.py:88-92 | a missing context cell becomes the empty text, never missing |
| ContainerTracer.RowContexts | components/container_tracer.py:73-92 | one origin context per baseline row |
| ContainerTracer.MapId | components/container_tracer.py:95-105 | mapping one ID keeps the map well-formed, contexts indexed as before |
| ContainerTracer.MapIdOrder | components/container_tracer.py:95-98 | a new ID is appended to the key order, a known one changes nothing in it |
| ContainerTracer.MapIdsOrder | components/container_tracer.py:95-105 | mapping a row appends exactly its IDs not seen before, in first-seen order |
| ContainerTracer.MapIdsOrigin | components/container_tracer.py:95-105 | known IDs keep their first origin; the new IDs are the row's and point at that row |
| ContainerTracer.MapIdsContexts | components/container_tracer.py:99-105 | flagging duplicates changes no context apart from its duplicate marks |
| ContainerTracer.MapIdCount | components/container_tracer.py:95-105 | every ID either adds a key or one to a duplicate count |
| ContainerTracer.MapIdsCount | components/container_tracer.py:95-105 | a row of n IDs adds n to keys plus duplicate marks |
| ContainerTracer.MapRowIds | components/container_tracer.py:95-105 | the inner loop computes the fold `MapIds` |
| ContainerTracer.Origins | components/container_tracer.py:73-107 | the origin map is well-formed with one context per row |
| ContainerTracer.BuildContainerOriginMap | components/container_tracer.py:31-107 | the loops compute `OriginOf` |
| ContainerTracer.OriginOrder | components/container_tracer.py:95-98 | the map's keys are all baseline IDs deduplicated, in first-seen order |
| ContainerTracer.InFlattenIff | components/container_tracer.py:73-96 | an ID is among all rows' IDs exactly when some row holds it |
| ContainerTracer.OriginFirst | components/container_tracer.py:96-101 | every ID maps to the first baseline row holding it |
| ContainerTracer.OriginDomain | components/container_tracer.py:95-97 | an ID is a key exactly when some baseline row holds it |
| ContainerTracer.OriginContexts | components/container_tracer.py:82-92 | each row's context is kept apart from duplicate marks |
| ContainerTracer.OriginCount | components/container_tracer.py:95-105 | keys plus duplicate marks account for every baseline ID occurrence |
| ContainerTracer.FlipIds | components/container_tracer.py:216 | the IDs of the flipped pairs |
| ContainerTracer.Froms | components/container_tracer.py:216-217 | the source carriers of the flipped pairs |
| ContainerTracer.TraceRowIds | components/container_tracer.py:205-217 | the loop computes the kept/flipped/unknown split and the per-source flip counts |
| ContainerTracer.TraceKept | components/container_tracer.py:211-214 | kept are exactly the known IDs whose first carrier equals the row's carrier, in order |
| ContainerTracer.TraceUnknown | components/container_tracer.py:206-208 | unknown are exactly the IDs absent from the origin map, in order |
| ContainerTracer.TraceFlipped | components/container_tracer.py:215-217 | flipped are exactly the known IDs from another carrier, in order |
| ContainerTracer.TraceFroms | components/container_tracer.py:209-217 | each flipped pair carries the ID's first carrier |
| ContainerTracer.TraceSizes | components/container_tracer.py:205-217 | kept, flipped and unknown together hold every ID of the row |
| ContainerTracer.SummarySources | components/container_tracer.py:217 | the flip summary's keys are the source carriers in first-seen order |
| ContainerTracer.SummaryCounts | components/container_tracer.py:217 | each source's count is how many flipped IDs came from it |
| ContainerTracer.SummaryKeys | components/container_tracer.py:217 | the summary's keys are distinct |
| ContainerTracer.SummaryTotal | components/container_tracer.py:217 | the summary's counts add up to the flipped IDs |
| ContainerTracer.TracerGroupColumns | components/container_tracer.py:144-151 | the default grouping columns present in the data, Category first when present |
| ContainerTracer.OriginKey | components/container_tracer.py:166-177 | one key value per grouping column |
| ContainerTracer.BuildGroupState | components/container_tracer.py:166-185 | the loop computes `StateOf` |
| ContainerTracer.FileLookup | components/container_tracer.py:180-185 | filing an ID appends it to its group and carrier and leaves the rest |
| ContainerTracer.StateLookup | components/container_tracer.py:166-185 | a group and carrier hold, in key order, exactly the IDs whose origin has that group and carrier, and the entry exists exactly when there are some |
| ContainerTracer.FlipsFromCount | components/container_tracer.py:226 | the IDs listed for a source are as many as its flips |
| ContainerTracer.TraceOneRow | components/container_tracer.py:187-233 | the row step computes `TraceRow` |
| ContainerTracer.TraceContainerMovements | components/container_tracer.py:110-235 | one result per current row, each its `TraceRow` against the default group state |
| ContainerTracer.TraceRowLists | components/container_tracer.py:187-233 | a row's kept, flipped and unknown lists are those of its IDs |
| ContainerTracer.TraceRowSummary | components/container_tracer.py:217-230 | a row's summary counts its flips per source, totals agree with the lists |
| ContainerTracer.TraceRowOriginal | components/container_tracer.py:195-232 | the original count and list are the baseline IDs of the row's group and carrier, none for a missing carrier |
| ContainerTracer.SourceItems | components/container_tracer.py:302-303 | one (source, count) item per summary key, in order |
| ContainerTracer.TotalSorted | components/container_tracer.py:302-303 | sorting the items keeps their total |
| ContainerTracer.TotalItems | components/container_tracer.py:302-303 | the items' total is the summary's total |
| ContainerTracer.SortedFlipsTotal | components/container_tracer.py:302-303 | the sorted flips hold every flipped ID, one item per source, counts non-increasing |
| ContainerTracer.GainEntries | components/container_tracer.py:313-350 | one text per shown source |
| ContainerTracer.HadStarts | components/container_tracer.py:280-290 | the first part starts with "Had " and the original count |
| ContainerTracer.FormatFlipDetails | components/container_tracer.py:238-373 | the text starts with "Had n", n the original count, and ends with "→ Now m", m the current count |
| ContainerTracer.KeptAllShown | components/container_tracer.py:292-368 | "(kept all)" exactly when the row kept its whole non-empty original and nothing changed; otherwise " → " and the joined changes, or no middle part when there are none |
| ContainerTracer.LossShown | components/container_tracer.py:270-362 | a loss part appears exactly when some original ID is no longer kept, and says how many |
| ContainerTracer.LostAreMissing | components/container_tracer.py:270-275 | an ID is lost exactly when the carrier held it in the group's baseline and the row does not keep it |
| ContainerTracer.GainsAddUp | components/container_tracer.py:323-335 | past max_carriers, shown and "others" counts add up to the flips, and every shown source has at least the count of any hidden one |
| ContainerTracer.OriginOfWellFormed | components/container_tracer.py:31-107 | the origin map is well-formed |
| ContainerTracer.AddDetailedCarrierFlipsColumn | components/container_tracer.py:376-420 | one text per row: "No baseline" without baseline rows, "No container tracking" without the ID column, else the formatted trace of each row |
| ContainerTracer.AddRowFlows | components/container_tracer.py:467-472 | adds one row's flips to the flow matrix |
| ContainerTracer.BuildFlows | components/container_tracer.py:464-472 | the loop computes `FlowsOf` |
| ContainerTracer.AddToTotal | components/container_tracer.py:472 | adding n to a destination adds n to the total |
| ContainerTracer.AddFlowTotal | components/container_tracer.py:469-472 | adding a flow adds its count to the matrix total |
| ContainerTracer.AddSourcesTotal | components/container_tracer.py:468-472 | a row's flips add their sum to the matrix total |
| ContainerTracer.FlowsConserve | components/container_tracer.py:464-472 | the flow matrix holds exactly the flipped total |
| ContainerTracer.ToFlows | components/container_tracer.py:476-477 | one flow per destination |
| ContainerTracer.AllFlowsSum | components/container_tracer.py:474-477 | flattening the matrix keeps its total |
| ContainerTracer.SumFlowsSorted | components/container_tracer.py:479 | sorting flows keeps their total |
| ContainerTracer.Traces | components/container_tracer.py:456 | one trace per current row |
| ContainerTracer.Carriers | components/container_tracer.py:466 | one destination carrier per current row |
| ContainerTracer.GetContainerMovementSummary | components/container_tracer.py:423-491 | "No baseline data" without baseline rows, "No container tracking" without the ID column, else the statistics of the traces |
| ContainerTracer.ComputeStats | components/container_tracer.py:458-491 | the method computes `Stats` |
| ContainerTracer.TracesSummarized | components/container_tracer.py:110-235 | every trace's kept, flipped and unknown add up to its current count |
| ContainerTracer.TotalsPartition | components/container_tracer.py:458-482 | kept, flipped and unknown totals add up to the current total |
| ContainerTracer.StatsFlows | components/container_tracer.py:464-490 | all flows add up to the flipped total; the top flows are at most 10 of them, counts non-increasing, and all of them when there are at most 10 |
| ContainerTracer.SharesAddUp | components/container_tracer.py:486-487 | the three percentages of a non-empty total add up to 100 |
| ContainerTracer.StatsShares | components/container_tracer.py:481-490 | with containers, kept, flipped and unknown percentages add up to 100 |
| PyMath.Trunc | optimization/cascading_logic.py:701 | Python's `int()` of a float: the integer toward zero, within 1 of the value |
| PyMath.RoundHalfEven | optimization/linear_programming.py:351 | Python's `round()`: within 0.5 of the value, an exact half goes to the even neighbour, integers are kept |
| Frame.RowsWithKey | optimization/cheapest_logic.py:142 | the rows with the key, in order, and no others |

## Left out

- PyMath.RoundTo: Python's binary floats are modelled as exact reals, so `round(x, 1)` is decimal rounding of the exact value. Results that float error would flip (`100 * 7 / 100` can be just above 7.0) are not reproduced.
- CascadeAllocation.Caps: the growth caps and the cascade shares are exact reals, so float error in `hist × (1 + growth)` and in the running `remaining` is not reproduced.
- CascadeAllocation.CascadeShares: exact reals, as for the caps. The largest-remainder step sees exact remainders.
- ConstraintsProcessor.PercentTarget: `ceil(total × p / 100)` is taken on the exact value. The float product can be just above a whole number and give one more container.
- LinearProgramming.Normalize: min-max normalisation on exact reals. A constant column gives 0.5 everywhere, as in the source, but float error in `(x - min) / (max - min)` is not reproduced.
- CascadeGroup.ByLpVolume: `sort_values(container_column, ascending=False)` on one column uses pandas' default quicksort, which is not stable. The model breaks ties by input position, so which of two equally sized LP rows comes first (and so which rank a carrier gets) may differ from the source's.
- ConstraintsProcessor.ApplyConstraintsToData: the balance "original = constrained + unconstrained" is proved only for tables that list each container ID once, with no negative count and each row that lists IDs holding exactly its count of them (`ListsEachOnce`). On other tables the tracker's deduplication can make counts and IDs disagree. The source's Failed path (lines 637-652) is kept as written: it drops the violating records while their IDs stay tracked and out of the rows, so those containers are in neither output and the mismatch check at lines 696-707 fires exactly when some constraint ends Failed. On a table without Week Number, the loop-level contract states the KeyError from the week sort (line 558) only through its consequence: a successful run locked nothing. The exact condition, an eligible row under a positive target, is stated per constraint by `ApplyConstraint`.
- ConstraintsProcessor.ByWeek: `sort_values('Week Number')` in `apply_constraints_to_data` is a one-column quicksort too. Equal weeks keep input order in the model, not the source's unspecified order. `ConstraintsAdvanced.RuleQueue` uses the same order for the week sort of `apply_advanced_constraints`.
- ConstraintsAdvanced.SortRules: the one-column priority sort of `validate_and_process_constraints` and `apply_advanced_constraints` is modelled stable (equal priorities keep sheet order).
- HistoricVolume.TrendRows: the one-column `sort_values('Total_Containers', ascending=False)` of the trends is modelled stable. The multi-column sorts (performance, cheapest, share order) use lexsort, which is stable, so they are exact.
- Text.ParseReal: reads only plain decimals: an optional sign, then digits with at most one decimal point. Python's `float()` also accepts exponents ("1e1", "2.5E-3"), "inf", "infinity" and "nan" in any case and with a sign, and underscores between digits ("1_0"). For such texts `clean_percent` returns a number where the model gives no value.
- Text.Strip: strips only the ASCII whitespace Python knows: space, tab to carriage return, and the separators 0x1C to 0x1F. Python's `str.strip()` also strips non-ASCII whitespace such as U+00A0 and U+2003.
- Text.Upper: upper-cases only ASCII letters. Python's `str.upper()` also maps other letters and can lengthen a string ("ß" becomes "SS").
- Frame.Shipment: the container count and week are integers. `pd.to_numeric` can yield fractional counts or weeks, which the model does not represent.
- PerformanceCalculator.CalculatePerformanceOptimization: uses the corrected carrier score (`CarrierScores`). For a carrier whose scored rows all have count 0, the source's inline score at components/performance_calculator.py:43-46 is NaN; the model gives the plain mean of the scores (see Findings).
- PerformanceCalculator.ComputeCarrierScores: computes the corrected score, not the inline NaN one (see Findings).
- LinearProgramming.IdsHandedOut: proved only when the rounded counts stay within the ID pool. Banker's rounding can exceed it: shares 1.5, 1.5 and 1.0 of a 4-ID group round to 2, 2 and 1. A row past the pool then keeps its carrier row's own IDs and the recount no longer matches the rounded count. `LinearProgramming.PoolOverrun` states that case.
- LinearProgramming.PoolUsedUp: proved only when the rounded counts add up to exactly the pool size, for the same reason.
- LinearProgramming.OptimizeSingleGroup: computes the source's behaviour, including an exhausted pool. Its ID and count properties (`IdsHandedOut`, `PoolUsedUp`) are proved only within the pool; past it, only `PoolOverrun` says what happens.
- CascadeGroup.RankCarriersFromLp: computes the ranks as written (`GroupRanks`), including the rank collision of Findings. The cascade is driven by these ranks; `CascadeGroup.IntendedRanks` is the corrected ranking, proved apart.
- ConstraintsAdvanced.ApplyAdvancedConstraints: returns the unconstrained rows as written (`KeptRows`). A partly taken row is dropped whole (see Findings). `ConstraintsAdvanced.UnconstrainedRows` is the corrected definition, proved apart.
- The linear program itself (PuLP) is not modelled. For each group the solver's answer is an input, either "not optimal" or an allocation per carrier.
- `get_current_week_number` reads the clock and is not modelled. The current week is a parameter.
- Reading the constraints workbook (`process_constraints_file`) is not modelled apart from `clean_percent`. Its column cleanup, priority sort and dropping of rows without a priority happen before `apply_constraints_to_data`, which takes the constraints in the order given.
- Streamlit calls (`st.*`), logging and `print` output are not modelled. They only report.
- Float formatting is not modelled. This covers the cascade's notes text, the LP strategy label (the model returns the weights the label shows), `format_currency`, `format_percentage` and `safe_numeric`.
- The `len(carriers) == 0` branch of `_cascading_allocate_single_group` (marking a group UNALLOCATABLE) is not modelled. A non-empty group always has at least one carrier value, NaN included, so the branch cannot be reached.
- In the tracer, distinct NaN carrier objects of different baseline rows are distinct dict keys in Python. The model collapses every NaN carrier to one key (`None`).
- The tracer's `group_cols` argument is modelled only as its default; no caller passes it. The `'Week Number'`/`'week'` special case is dead with the default mapping.
- Values of columns the model does not name (free-form extra columns) travel with their row but are not represented.

## Findings

| source | as written | input that shows it | evidently intended | confidence | as-written member | corrected member |
|---|---|---|---|---|---|---|
| components/constraints_advanced.py:444-445 | every row a rule took containers from is removed from the unconstrained data, also when the rule took only part of it | one row of 10 containers and a rule with Maximum 4: 4 containers are constrained, the row is removed, and 6 containers are in neither result; the balance check at lines 452-463 reports a mismatch | the untaken rest of a partly taken row stays unconstrained, so that constrained plus unconstrained equals the input, as the balance check expects | not executed | ConstraintsAdvanced.PartialRowDropped | ConstraintsAdvanced.CorrectedBalance |
| components/performance_calculator.py:43-46 | the inline carrier score divides the weighted sum by the volume with no guard | a carrier whose only scored row has score 70 and count 0: 0 / 0 gives NaN, so its score is lost | fall back to the plain mean of the scores when the volume is 0, as the same file does at lines 163-169 | not executed | PerformanceCalculator.ZeroVolumeExample | PerformanceCalculator.CarrierScoreWithinScores |
| optimization/cascading_logic.py:484-489 | carriers missing from the LP output are numbered from `len(carrier_ranks) + 1`, the number of LP-ranked carriers, not from past the largest LP rank | carriers A and B to allocate and LP rows for the group sorted as [X, A], where carrier X is in the LP output but not among the carriers to allocate: A gets rank 2, and B also gets rank 2 | number the missing carriers after every LP rank, so that no two carriers share a rank | not executed | CascadeGroup.LpRankCollision | CascadeGroup.IntendedRanksDistinct |
