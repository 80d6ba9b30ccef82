# advanced-value-counts, modelled in Dafny

This project models advanced-value-counts, a pandas helper. It turns one categorical column of a data frame into a frequency table:
- it counts the column, optionally per group of a second column;
- it buckets rare values into `_other`;
- it labels missing cells `_na`;
- in grouped mode it adds the summary rows `_all` (the whole data set) and `_total` (a group's total);
- it collapses rare subgroups;
- it adds, for every subgroup of a real group, the difference between its within-group ratio and the same subgroup's ratio in `_all`.

The `AdvancedValueCounts` class wraps this computation. It holds a frame and the settings, checks every setting through an attribute descriptor when it is assigned, and recomputes the table at every read.

Modules, one per stage of the source:

- `Seqs`: counting, filtering, a duplicate-free descending insertion sort, `head`/`drop`.
- `Frames`: cells (`Missing | Str`), records, the `_other`/`_na`/`_total`/`_all` labels, table rows, ratios, and the `KeyError`/`TypeError` results.
- `ValueBucketing`: `group_uncommon_values`.
- `SummaryStatistics`: `add_summary_statistics` in grouped mode. Its two loops are methods proved against the table function.
- `SubgroupCollapse`: `group_uncommon_subgroups`, with both renaming passes.
- `Regroup`: `groupby([index, column]).sum().sort_index()` on the collapsed table.
- `SubgroupDiff`: `add_subgroup_diff_vs_total`. Its loop is a method proved against a function.
- `AvcPipeline`: `get_avc_df`, as a function and as a stage-by-stage method, with its error cases.
- `UngroupedMode`: properties of the ungrouped table.
- `KeyErrorExample`: a concrete frame on which grouped mode fails with `KeyError`.
- `PyValues`: the Python values handed to the validators (`None`, bools, ints, floats with infinities, strings), and checks that return or raise.
- `HelperFunctions`: the validators and descriptors of `helper_functions.py`, which `AdvancedValueCounts` is declared with.
- `ValueChecks`: the second copy of the validators (`value_checks.py`), a descriptor-guarded attribute as a class, and the `new_attribute_warning` decorator as a class.
- `Avc`: the `AdvancedValueCounts` class, its constructor, guarded setters, `avc_df` and `unsummerized_df`.

Conventions of the model:

- **Labels.** Data labels never equal one of the four sentinel labels (`CleanData`). The source relies on this without checking it.
- **Ratios.** Ratios are exact reals.
- **Errors.** A pandas exception the code runs into on validated settings is an `Err` result. In grouped mode the code raises `KeyError` on validated settings in two cases:
  1. A missing `_all` row. Pass 1 of `group_uncommon_subgroups` renames a real group's subgroup to `_other`, no row of `_all` is called `_other`, and `add_subgroup_diff_vs_total` then looks up the missing `(_all, _other)` row. `RenamedSubgroupWithoutAllRow` exhibits such a frame.
  2. No labelled pair and no cap. No record has both cells labelled and `max_subgroups` is not set. Then the table holds only `_all` rows, `add_subgroup_diff_vs_total` never creates `subgr_r_diff_subgr_all`, and the final column selection raises `KeyError` (`Finish`, `NoPairsOnlyAll`).

  The model proves exactly when the error occurs (`GroupedErrors`, `MissingAllRowIsOther`).

## Model

| member | source | states |
|---|---|---|
| Frames.FillNa | src/advanced_value_counts/df_mutations.py:100-103 | every missing cell becomes `_na`; every other cell and the length are unchanged |
| Frames.RatioBounds | src/advanced_value_counts/df_mutations.py:182 | the share of a part of a whole lies in [0, 1]; it is 1 exactly for a non-empty whole; times the whole it gives back the part |
| Frames.LabelInjective | src/advanced_value_counts/df_mutations.py:285 | on clean cells, renaming missing to `_na` keeps different cells apart |
| ValueBucketing.Considered | src/advanced_value_counts/df_mutations.py:284 | `value_counts(dropna)` tallies every cell, except missing cells exactly when `dropna` |
| ValueBucketing.Tally | src/advanced_value_counts/df_mutations.py:284-285 | the index of the counts lists each tallied value once, and no other, largest count first |
| ValueBucketing.TotalIsTallied | src/advanced_value_counts/df_mutations.py:309 | the ratio test divides by the number of tallied cells |
| ValueBucketing.Allowed | src/advanced_value_counts/df_mutations.py:293-305 | the values `head` keeps are tallied values |
| ValueBucketing.Groups | src/advanced_value_counts/df_mutations.py:288-305 | `_na` is an allowed group whenever missing values are kept |
| ValueBucketing.GroupUncommonValues | src/advanced_value_counts/df_mutations.py:316-320 | the column keeps its length; each cell stays as it is or becomes `_other`; missing cells stay missing |
| ValueBucketing.CollapseExactly | src/advanced_value_counts/df_mutations.py:308-320 | a labelled cell becomes `_other` exactly when its count is below `min_count`, or its share is below `min_ratio`, or `head` did not keep it |
| ValueBucketing.AdmittedIsAllowed | src/advanced_value_counts/df_mutations.py:301-311 | a label is in `groups` exactly when its value is among those `head` keeps |
| ValueBucketing.NoCapThresholdsDecide | src/advanced_value_counts/df_mutations.py:301-312 | without `max_groups`, only the two thresholds decide the renaming (both directions) |
| ValueBucketing.ZeroCapCollapsesAll | src/advanced_value_counts/df_mutations.py:293-305 | `max_groups=0` is falsy but still reaches `head(0)`, so every labelled cell becomes `_other` and missing cells stay missing |
| ValueBucketing.CapAllowsTopN | src/advanced_value_counts/df_mutations.py:293-305 | a cap of n keeps exactly min(n, number of distinct labels) labelled values; the window widens by one when `_na` is inside it |
| ValueBucketing.AllowedAreMostFrequent | src/advanced_value_counts/df_mutations.py:302 | every kept value is at least as frequent as every value that was cut |
| ValueBucketing.SurvivorKeepsCount | src/advanced_value_counts/df_mutations.py:316-320 | a value that is not renamed, and a missing cell, occur exactly as often as before |
| SummaryStatistics.Cats | src/advanced_value_counts/df_mutations.py:182-183 | the ungrouped counts see only labelled cells |
| SummaryStatistics.Pairs | src/advanced_value_counts/df_mutations.py:187-190 | a (group, subgroup) key is tallied exactly when a record carries both labels |
| SummaryStatistics.PairsCoverCats | src/advanced_value_counts/df_mutations.py:182-190 | when no group cell is missing, the grouped tally of every subgroup equals its ungrouped count |
| SummaryStatistics.Tabulate | src/advanced_value_counts/df_mutations.py:186-206 | one row per observed key, none twice; its count is the number of records with that key; its ratio is that count over the group's size |
| SummaryStatistics.TabulateSum | src/advanced_value_counts/df_mutations.py:186-206 | for any selection of keys, the counts sum to the number of records selected: the grouped tallies lose nothing |
| SummaryStatistics.AddAllRows | src/advanced_value_counts/df_mutations.py:211-215 | the first loop appends, for each subgroup, its `_all` row with the whole-dataset count and ratio |
| SummaryStatistics.AddGroupTotals | src/advanced_value_counts/df_mutations.py:227-242 | the second loop appends a `_total` row with ratio 1 for every group except `_all`, whose count is the group's sum |
| SummaryStatistics.SummaryTable | src/advanced_value_counts/df_mutations.py:166-244 | the table `add_summary_statistics` builds; `SummaryRowKind`, `AllRowOfSubgroup`, `GroupTotalRow` and `GrandTotal` state its rows |
| SummaryStatistics.AddSummaryStatistics | src/advanced_value_counts/df_mutations.py:166-244 | the method builds exactly the summary table: tabulation, `_all` rows, grand total, group totals |
| SummaryStatistics.GroupTotalRow | src/advanced_value_counts/df_mutations.py:235-242 | each real group g gets a `(g, _total)` row with ratio 1 and count equal to its number of labelled records |
| SummaryStatistics.AllRowOfSubgroup | src/advanced_value_counts/df_mutations.py:211-215 | each subgroup seen in a group gets its `_all` row; with no missing groups, that row's count is the sum of its grouped counts |
| SummaryStatistics.AllRowOfSub | src/advanced_value_counts/df_mutations.py:211-215 | every tabulated subgroup has its `_all` row in the result |
| SummaryStatistics.GrandTotal | src/advanced_value_counts/df_mutations.py:218-242 | with no missing group cell, `(_all, _total)` holds the number of labelled cells, and the group totals add up to it |
| SummaryStatistics.WithAllHasNoGroupTotal | src/advanced_value_counts/df_mutations.py:204-223 | before the second loop no row is a real group's `_total` |
| SummaryStatistics.SummaryRowKind | src/advanced_value_counts/df_mutations.py:204-242 | every row is a tallied pair, an `_all` row or a `_total` row |
| SummaryStatistics.SomeGroupTotal | src/advanced_value_counts/df_mutations.py:227-242 | as soon as one record has both cells labelled, some real group has a `_total` row |
| SummaryStatistics.AllGroupSize | src/advanced_value_counts/df_mutations.py:211-223 | the table always has an `_all` row; it has exactly one exactly when no record has both cells labelled |
| SummaryStatistics.GroupsListed | src/advanced_value_counts/df_mutations.py:227-229 | every group of a tallied pair is among the groups the second loop visits |
| SummaryStatistics.InSummaryTable | src/advanced_value_counts/df_mutations.py:204-223 | every row built before the group totals stays in the result |
| SubgroupCollapse.MaxCount | src/advanced_value_counts/df_mutations.py:359 | `np.max` of the counts: an upper bound that some row attains |
| SubgroupCollapse.WithRatioVsTotal | src/advanced_value_counts/df_mutations.py:362 | the `r_vs_total` column is count over the largest count; keys, counts and ratios are unchanged |
| SubgroupCollapse.RatioVsTotalBounds | src/advanced_value_counts/df_mutations.py:359-362 | `r_vs_total` lies in [0, 1] and is 1 exactly for rows with the largest count, when that count is positive |
| SubgroupCollapse.RankedAll | src/advanced_value_counts/df_mutations.py:370-375 | the `_all` rows, exactly those, sorted by descending count |
| SubgroupCollapse.TopRows | src/advanced_value_counts/df_mutations.py:368-378 | the `_all` rows ranked by count with the first-ranked one skipped, at most `max_subgroups` of them; `TopSubgroups` and `TopSubgroupsAreMostFrequent` state which subgroups they are |
| SubgroupCollapse.TopSubgroups | src/advanced_value_counts/df_mutations.py:368-380 | the cap allows at most `max_subgroups` subgroups, each one listed under `_all` |
| SubgroupCollapse.TopSubgroupsAreMostFrequent | src/advanced_value_counts/df_mutations.py:373-376 | an allowed `_all` row is at least as frequent as every `_all` row cut by the slice (after the skipped first row) |
| SubgroupCollapse.FirstPass | src/advanced_value_counts/df_mutations.py:405-415 | pass 1 keeps the length; every row stays as it is or has its subgroup renamed `_other` |
| SubgroupCollapse.FirstPassRenames | src/advanced_value_counts/df_mutations.py:387-415 | a row ends up `_other` exactly when it already was, or it is a real group's row with a subgroup other than `_na`/`_total` that misses a threshold or the cap; `_na`, `_total` and `_all` rows are untouched |
| SubgroupCollapse.SecondPass | src/advanced_value_counts/df_mutations.py:417-428 | pass 2 leaves real groups alone and renames an `_all` row exactly when no real group uses its subgroup; the subgroups the real groups use are unchanged |
| SubgroupCollapse.CollapseSubgroups | src/advanced_value_counts/df_mutations.py:323-428 | `KeyError` exactly when there is no `_all` row; `TypeError` exactly when capped with a lone `_all` row; otherwise groups, counts and ratios are kept and subgroups are kept or become `_other` |
| SubgroupCollapse.SurvivorsMeetThresholds | src/advanced_value_counts/df_mutations.py:387-394 | a real row that keeps a data subgroup meets all three thresholds and, under a cap, is among the top subgroups |
| SubgroupCollapse.SentinelRowsKept | src/advanced_value_counts/df_mutations.py:393 | `_na` and `_total` rows of real groups keep their key |
| SubgroupCollapse.AllRowsKeptWhileUsed | src/advanced_value_counts/df_mutations.py:417-428 | an `_all` row keeps its key exactly while a real group still uses its subgroup after pass 1, and becomes `(_all, _other)` otherwise |
| SubgroupCollapse.AllSubsOccurInGroups | src/advanced_value_counts/df_mutations.py:417-428 | after pass 2, every subgroup listed under `_all` occurs in some real group |
| SubgroupCollapse.KeptSubsHaveAllRow | src/advanced_value_counts/df_mutations.py:395-428 | every subgroup other than `_other` that a real group keeps still has an `_all` row |
| SubgroupCollapse.AllRowIndexOf | src/advanced_value_counts/df_mutations.py:211-215 | every real row's subgroup has an `_all` row in the summary table |
| SubgroupCollapse.CollapseErrors | src/advanced_value_counts/df_mutations.py:368-376 | on a summary table the collapse fails exactly when capped and no record has both cells labelled, and never with `KeyError` |
| Regroup.StrLessTransitive | src/advanced_value_counts/df_mutations.py:143 | Python's string order is transitive |
| Regroup.StrLessTotal | src/advanced_value_counts/df_mutations.py:143 | any two different strings are ordered one way or the other |
| Regroup.KeyLessOrder | src/advanced_value_counts/df_mutations.py:143 | the order of the two-level index (group, then subgroup) is a strict total order |
| Regroup.AddRow | src/advanced_value_counts/df_mutations.py:139-144 | adding a row adds exactly its key to the set of keys |
| Regroup.AddRowSorted | src/advanced_value_counts/df_mutations.py:139-144 | adding a row to a strictly sorted table keeps it strictly sorted |
| Regroup.Merge | src/advanced_value_counts/df_mutations.py:139-144 | the regrouped table is strictly sorted by key, with no key twice, and has exactly the keys of its input |
| Regroup.MergeKeepsSums | src/advanced_value_counts/df_mutations.py:141-142 | over any selection of keys, the sums of count, ratio and `r_vs_total` are the same before and after the regrouping |
| Regroup.SumsOfUniqueKey | src/advanced_value_counts/df_mutations.py:141-144 | in a table without repeated keys, the sums over one key are that row's values |
| Regroup.MergedRow | src/advanced_value_counts/df_mutations.py:141-142 | each regrouped row holds the sums of count, ratio and `r_vs_total` over the input rows with its key |
| Regroup.SourceOfMerged | src/advanced_value_counts/df_mutations.py:139-144 | every regrouped key comes from an input row |
| Regroup.MergedOfSource | src/advanced_value_counts/df_mutations.py:139-144 | every input key has a regrouped row |
| SubgroupDiff.AllRatio | src/advanced_value_counts/df_mutations.py:448 | the `_all` ratio of a subgroup is found exactly when an `(_all, v)` row exists, and it is that row's ratio |
| SubgroupDiff.SubgroupDiff | src/advanced_value_counts/df_mutations.py:445-450 | `KeyError` exactly when no row belongs to `_all` (`drop("_all")`, the empty table included) or a real row's subgroup has no `_all` row; otherwise all columns are kept, and the difference is set exactly on the rows outside `_all` |
| SubgroupDiff.DiffAgainstAllRow | src/advanced_value_counts/df_mutations.py:446-449 | a real row's difference is its ratio minus the ratio of the `_all` row of its subgroup |
| SubgroupDiff.AddSubgroupDiff | src/advanced_value_counts/df_mutations.py:445-450 | the failing `drop("_all")` and then the loop over the rows outside `_all` compute exactly the function above, including both `KeyError`s |
| AvcPipeline.Filled | src/advanced_value_counts/df_mutations.py:99-103 | missing cells become `_na` only when missing values are kept |
| AvcPipeline.GroupedFrame | src/advanced_value_counts/df_mutations.py:73-103 | the bucketed and filled frame has one record per input record |
| AvcPipeline.UngroupedColumn | src/advanced_value_counts/df_mutations.py:89-101 | the bucketed and filled column has one cell per record |
| AvcPipeline.Labelled | src/advanced_value_counts/df_mutations.py:182-183 | `value_counts()` counts only labelled cells |
| AvcPipeline.ValueCounts | src/advanced_value_counts/df_mutations.py:182-183 | each labelled value once, and no other, largest count first |
| AvcPipeline.CountRows | src/advanced_value_counts/df_mutations.py:182-206 | one row per listed value |
| AvcPipeline.AvcDf | src/advanced_value_counts/df_mutations.py:5-163 | `get_avc_df`: grouped mode exactly when a group column is given; its properties are those of `GroupedAvc` and `UngroupedAvc` |
| AvcPipeline.GroupedAvc | src/advanced_value_counts/df_mutations.py:69-160 | grouped mode; `GroupedErrors` states when it fails and with which error, `GroupedOutput` and `AllListsGroupSubgroups` the shape of what it returns |
| AvcPipeline.UngroupedAvc | src/advanced_value_counts/df_mutations.py:89-163 | ungrouped mode; `UngroupedErrors` states its errors, and `TableRow`, `TableOrder`, `TableComplete` and `TableTotal` its rows |
| AvcPipeline.CollapseStep | src/advanced_value_counts/df_mutations.py:365-376 | `group_uncommon_subgroups` under the setting as given: a non-zero float `max_subgroups` fails at `loc["_all"]` with `KeyError` when there is no `_all` row, and otherwise at the float slice with `TypeError`; `GroupedErrors` states the outcome |
| AvcPipeline.Finish | src/advanced_value_counts/df_mutations.py:139-160 | regrouping, differences and the final column selection; `FinishOk`, `DiffShape` and `DiffErrors` state when it fails and the shape of its result |
| AvcPipeline.CountTable | src/advanced_value_counts/df_mutations.py:181-182 | `value_counts()` sorted by count; `TableRow`, `TableOrder`, `TableComplete` and `TableTotal` state its rows |
| AvcPipeline.GetAvcDf | src/advanced_value_counts/df_mutations.py:5-163 | the stage-by-stage method computes exactly `AvcDf`, errors included |
| AvcPipeline.GroupedFrameLabels | src/advanced_value_counts/df_mutations.py:69-103 | bucketing and `fillna` never produce the `_all` group or a `_total` subgroup on clean data |
| AvcPipeline.NoPairsOnlyAll | src/advanced_value_counts/df_mutations.py:204-242 | without a record that has both cells labelled, every summary row belongs to `_all` |
| AvcPipeline.GroupedStages | src/advanced_value_counts/df_mutations.py:110-150 | a grouped result passed the collapse and the rounding, and is the difference table of the regrouped collapse |
| AvcPipeline.GroupedOutput | src/advanced_value_counts/df_mutations.py:139-160 | every grouped result is strictly sorted by (group, subgroup), has a real row, has a difference exactly outside `_all`, and that difference is the ratio minus the `_all` ratio of the subgroup |
| AvcPipeline.DiffShape | src/advanced_value_counts/df_mutations.py:139-150 | a difference table of a strictly sorted table with a real row has that shape |
| AvcPipeline.DiffValues | src/advanced_value_counts/df_mutations.py:446-449 | in such a table every real row's difference is taken against its `_all` row |
| AvcPipeline.AllListsGroupSubgroups | src/advanced_value_counts/df_mutations.py:417-428 | in every grouped result, `_all` lists exactly the subgroups the real groups list |
| AvcPipeline.TableSubgroups | src/advanced_value_counts/df_mutations.py:417-450 | the same on a collapsed summary table after regrouping and differences |
| AvcPipeline.DiffSubgroups | src/advanced_value_counts/df_mutations.py:445-450 | the differences keep both sides' subgroups; when every `_all` subgroup is in use, the two sets agree |
| AvcPipeline.MergedAllUsed | src/advanced_value_counts/df_mutations.py:139-144 | summing equal keys keeps every `_all` subgroup in use |
| AvcPipeline.CollapsedAllUsed | src/advanced_value_counts/df_mutations.py:417-428 | after both passes, every `_all` subgroup of a summary table is used by a real group |
| AvcPipeline.CollapsedRealRow | src/advanced_value_counts/df_mutations.py:204-242 | a real row after the collapse means some record has both cells labelled |
| AvcPipeline.GroupedErrors | src/advanced_value_counts/df_mutations.py:73-160 | grouped mode fails with `TypeError` exactly for float `max_groups`, a non-zero float `max_subgroups` or `round_ratio`, or a cap without labelled pairs; it fails with `KeyError` exactly when there are no labelled pairs without a cap, or a real row's subgroup lost its `_all` row |
| AvcPipeline.CollapsedHasReal | src/advanced_value_counts/df_mutations.py:204-428 | after the collapse a real row remains exactly when a record has both cells labelled |
| AvcPipeline.DiffErrors | src/advanced_value_counts/df_mutations.py:139-150 | the regrouping and the differences fail exactly when the table is empty or a real row's subgroup has no `_all` row; otherwise real rows come out exactly when real rows went in |
| AvcPipeline.MissingAllRowIsOther | src/advanced_value_counts/df_mutations.py:405-428 | on clean data, only the `_other` subgroup can lack its `_all` row |
| KeyErrorExample.FrequentValuesKept | src/advanced_value_counts/df_mutations.py:308-320 | without a cap or ratio threshold, a column whose every value meets `min_count` is left unchanged |
| KeyErrorExample.KeyErrorRenamed | src/advanced_value_counts/df_mutations.py:387-415 | in the example the lone `v` of group `x` becomes `_other` |
| KeyErrorExample.KeyErrorCollapsed | src/advanced_value_counts/df_mutations.py:395-428 | the example's collapsed table has a real `_other` row but no `(_all, _other)` row |
| KeyErrorExample.RenamedSubgroupWithoutAllRow | src/advanced_value_counts/df_mutations.py:446-449 | with the defaults and `min_subgroup_count=2`, group x = {v} and group y = {v, v, v} make grouped mode fail with `KeyError` |
| UngroupedMode.UngroupedErrors | src/advanced_value_counts/df_mutations.py:90-136 | ungrouped mode fails with `TypeError` exactly for float `max_groups`; it fails with `KeyError` exactly for a truthy `round_ratio` (no `subgroup_ratio` column); otherwise it is the count table of the bucketed column |
| UngroupedMode.Listed | src/advanced_value_counts/df_mutations.py:163 | the table lists each labelled value once, and no other, largest count first |
| UngroupedMode.TableRow | src/advanced_value_counts/df_mutations.py:182-183 | each row names a labelled value, with its number of cells and its share of the labelled cells |
| UngroupedMode.TableOrder | src/advanced_value_counts/df_mutations.py:163 | earlier rows have counts at least as large, and name different values |
| UngroupedMode.TableComplete | src/advanced_value_counts/df_mutations.py:182-183 | every labelled value of the column has a row |
| UngroupedMode.TableTotal | src/advanced_value_counts/df_mutations.py:183 | the counts add up to the number of labelled cells |
| UngroupedMode.UngroupedTotal | src/advanced_value_counts/df_mutations.py:100-101 | when missing values are kept, the counts add up to the number of records |
| UngroupedMode.UngroupedZeroCap | src/advanced_value_counts/df_mutations.py:90-97 | `max_groups=0` leaves only `_other` and `_na` rows |
| UngroupedMode.UngroupedKeepsCounts | src/advanced_value_counts/df_mutations.py:90-97 | any value other than `_other` and `_na` keeps its input count |
| PyValues.Then | src/advanced_value_counts/helper_functions.py:40-44 | checks run in sequence: the pair passes exactly when both pass, and the first exception wins |
| HelperFunctions.NotBelowZero | src/advanced_value_counts/helper_functions.py:11-13 | a bare comparison: numbers at least 0 and both bools pass; `None` and strings raise `TypeError` |
| HelperFunctions.CheckIfRatio | src/advanced_value_counts/helper_functions.py:26-28 | numbers in [0, 1] and both bools pass; `None` and strings raise `TypeError` |
| HelperFunctions.PlainChecks | src/advanced_value_counts/helper_functions.py:6-23 | `only_numbers` passes exactly ints and floats; `numbers_or_none` passes exactly those and `None`; otherwise `TypeError`; `not_inf` raises `ValueError` on positive infinity only |
| HelperFunctions.PositiveNumberSet | src/advanced_value_counts/helper_functions.py:40-44 | accepts exactly finite numbers at least 0; `TypeError` exactly for non-numbers, bools included; otherwise `ValueError` |
| HelperFunctions.PositiveNumberOrNoneSet | src/advanced_value_counts/helper_functions.py:54-59 | accepts exactly `None` and finite numbers at least 0; `TypeError` exactly for other non-numbers |
| HelperFunctions.RatioSet | src/advanced_value_counts/helper_functions.py:69-72 | accepts exactly numbers in [0, 1]; `TypeError` exactly for non-numbers |
| HelperFunctions.AcceptedIsFinite | src/advanced_value_counts/helper_functions.py:40-72 | whatever a descriptor accepts is `None`, an int at least 0, or a finite float at least 0 |
| HelperFunctions.TypeCheckedFirst | src/advanced_value_counts/helper_functions.py:40-72 | every string and every bool raises `TypeError` in each descriptor, before any comparison |
| ValueChecks.NotBelowZero | src/advanced_value_counts/value_checks.py:21-33 | type-checked first: numbers at least 0 pass; non-numbers, bools included, raise `TypeError` |
| ValueChecks.CheckIfRatio | src/advanced_value_counts/value_checks.py:63-75 | type-checked first: numbers in [0, 1] pass; non-numbers raise `TypeError` |
| ValueChecks.ChecksAgree | src/advanced_value_counts/value_checks.py:8-75 | the checks shared with `helper_functions.py` agree on every value; the two type-checking ones differ from their twins exactly on bools |
| ValueChecks.PositiveNumberSet | src/advanced_value_counts/value_checks.py:88-91 | accepts and raises exactly as the `helper_functions.py` descriptor |
| ValueChecks.PositiveNumberOrNoneSet | src/advanced_value_counts/value_checks.py:101-106 | accepts and raises exactly as the `helper_functions.py` descriptor |
| ValueChecks.RatioSet | src/advanced_value_counts/value_checks.py:116-118 | accepts and raises exactly as the `helper_functions.py` descriptor |
| ValueChecks.GuardedAttribute.constructor | src/advanced_value_counts/value_checks.py:82-86 | a fresh attribute holds nothing |
| ValueChecks.GuardedAttribute.Set | src/advanced_value_counts/value_checks.py:88-118 | `__set__` stores the value exactly when its descriptor passes it; a rejected value leaves the stored one in place; the stored value always passes |
| ValueChecks.AssignedAttributes | src/advanced_value_counts/value_checks.py:164-168 | after a run of assignments an attribute exists exactly when it existed before or was assigned, and holds the last value assigned to it |
| ValueChecks.WarnOnNewAttributes.constructor | src/advanced_value_counts/value_checks.py:162 | a new object has no attributes and is not frozen |
| ValueChecks.WarnOnNewAttributes.SetAttr | src/advanced_value_counts/value_checks.py:164-168 | the value is always stored; a warning is issued exactly when the object is frozen and lacks the attribute |
| ValueChecks.WarnOnNewAttributes.Init | src/advanced_value_counts/value_checks.py:170-176 | the wrapped `__init__` applies its assignments in order, warns on none of them on a fresh object, and then freezes the object |
| Avc.WithAccepted | src/advanced_value_counts/avc.py:15-17 | replacing a setting by a value its descriptor accepts keeps all settings valid and changes only that one |
| Avc.Guard | src/advanced_value_counts/avc.py:15-17 | the descriptor each setting is declared with; `InitAcceptsExactly` and `WithAccepted` state what it accepts |
| Avc.InitCheck | src/advanced_value_counts/avc.py:54-65 | the descriptor checks in the order `__init__` assigns the settings; `InitAcceptsExactly` states that they pass exactly when every setting is accepted |
| Avc.InitAcceptsExactly | src/advanced_value_counts/avc.py:58-65 | `__init__`'s checks pass exactly when every setting passes its descriptor |
| Avc.ToSetting | src/advanced_value_counts/avc.py:75-88 | an accepted cap or `round_ratio` reaches `get_avc_df` as none, its int or its float |
| Avc.ToReal | src/advanced_value_counts/avc.py:75-88 | an accepted threshold reaches `get_avc_df` as its value, at least 0, at most 1 for ratios |
| Avc.DefaultsAgree | src/advanced_value_counts/avc.py:19-33 | the class's defaults are accepted and are `get_avc_df`'s defaults |
| Avc.DropGroup | src/advanced_value_counts/avc.py:93 | `drop` on the group level: `KeyError` exactly when the group is absent; otherwise each row of another group is kept as often as before, and the group's rows are gone |
| Avc.SubLevel | src/advanced_value_counts/avc.py:93-95 | the subgroup level of `avc_df`'s index holds exactly the subgroups of its rows |
| Avc.DropSub | src/advanced_value_counts/avc.py:93-95 | `drop` on the subgroup level: `KeyError` exactly when the label is not in the level, whether or not a remaining row carries it; otherwise each row of another subgroup is kept as often as before, and that subgroup's rows are gone |
| Avc.Unsummarized | src/advanced_value_counts/avc.py:92-95 | the two drops, the second against the level of the table before the first; `UnsummarizedRows` states its outcome |
| Avc.UnsummarizedRows | src/advanced_value_counts/avc.py:92-95 | the two drops succeed exactly when `_all` is a group and `_total` a subgroup of the table; then they keep exactly the rows of real groups and real subgroups, with their multiplicity |
| Avc.SecondDropUsesLevel | src/advanced_value_counts/avc.py:93-95 | once the first drop removed the only `_total` row, `(_all, _total)`, the second drop still succeeds, because `_total` stays in the level |
| Avc.SummaryRowsPresent | src/advanced_value_counts/avc.py:92-95 | every grouped result on clean data has an `_all` row and a real group's `_total` row |
| Avc.AdvancedValueCounts.constructor | src/advanced_value_counts/avc.py:19-33 | a new object holds the frame and every setting at its default |
| Avc.AdvancedValueCounts.Set | src/advanced_value_counts/avc.py:15-17 | assigning a setting raises exactly what its descriptor raises; an accepted value replaces only that setting, and a rejected one changes nothing |
| Avc.AdvancedValueCounts.Init | src/advanced_value_counts/avc.py:54-65 | construction raises the first exception of the checks in assignment order; otherwise the object holds exactly the given settings |
| Avc.AdvancedValueCounts.AvcDf | src/advanced_value_counts/avc.py:67-88 | `avc_df` is `get_avc_df` on the current settings; its table is grouped exactly when a group column is set |
| Avc.AdvancedValueCounts.UnsummerizedDf | src/advanced_value_counts/avc.py:90-100 | it warns exactly when there is no group column, and then returns `avc_df` unchanged |
| Avc.UnsummerizedKeepsRealRows | src/advanced_value_counts/avc.py:91-95 | grouped, `unsummerized_df` holds exactly the rows of `avc_df` outside `_all` and `_total` |
| Avc.UnsummerizedFailsOnlyWithAvcDf | src/advanced_value_counts/avc.py:90-100 | on clean data `unsummerized_df` fails exactly when `avc_df` does |

## Left out

- Rounding (`round_ratio`): in grouped mode an integer `round_ratio` leaves the exact ratios unrounded in the model, and a non-zero float one is a `TypeError` result, which is what `Series.round` raises. In ungrouped mode any truthy `round_ratio`, int or float, is a `KeyError` (`UngroupedErrors`): the ungrouped table has no `subgroup_ratio` column.
- NaN settings and NaN ratios are not modelled. `r_vs_total` of an empty table (0/0, NaN in pandas) is modelled as 0.
- Plotting (`get_plot`, `get_grouped_count_plot`), `__str__`, and the stale method `AdvancedValueCounts.group_uncommon_subgroups` in `avc.py` are presentation or dead code and are not modelled.
- Column lookup by name: the frame is a sequence of (group cell, category cell) records. `groupby_col` is modelled as the flag `grouped`, and `column` as the category cell.
- Tie order: pandas' order among equal counts is modelled as a stable insertion sort in first-occurrence order. No stated property depends on it.
- Copies and in-place updates of frames (`df.copy()`, `inplace=True`, `.loc` assignment) are modelled by value. Aliasing between the caller's frame and the copies is not captured.
- Seqs.Filter: states counts and membership of the kept elements, not that their order is preserved.
- SummaryStatistics.GrandTotal: stated only when no group cell is missing. With `dropna=True`, `(_all, _total)` also counts records whose group is missing, which no group total does.
- Empty frames and frames without labelled cells: pandas' behaviour on empty `value_counts` results is modelled by the same rules as non-empty ones.
- Warnings are returned as booleans (`WarnOnNewAttributes.SetAttr`, `AdvancedValueCounts.UnsummerizedDf`). Their message text is not modelled.
- `new_attribute_warning` sees only instance attributes. `hasattr` also finds class attributes and descriptors, which are not modelled. `AdvancedValueCounts` itself is not declared with this decorator.
- The descriptors' `__get__`, which raises `AttributeError` before any assignment, is the empty `Option` of `GuardedAttribute`.
- Avc.SubLevel: the index levels of `avc_df` are taken to hold exactly the labels of its rows. Labels pandas may keep in a level from earlier steps, although no row carries them any more, are not modelled; only the labels of rows removed by the first drop of `unsummerized_df` are.
- Integers are unbounded; Python ints are too. Floats are exact reals plus the two infinities.
