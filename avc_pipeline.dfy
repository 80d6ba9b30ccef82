/** The whole engine (`get_avc_df`). In grouped mode: rare groups and rare
    categories are bucketed, missing cells become `_na`, the frequency table
    gets its summary rows, rare subgroups collapse, equal keys are summed
    and every real row gets its difference against `_all`. In ungrouped
    mode: the column is bucketed and counted once, largest counts first.
    The errors pandas raises along the way are results. */
module AvcPipeline {
  import opened Seqs
  import opened Frames
  import opened ValueBucketing
  import opened SummaryStatistics
  import opened SubgroupCollapse
  import opened Regroup
  import opened SubgroupDiff

  /** A setting that may be `None`, an `int` or a `float` (`max_groups`,
      `max_subgroups`, `round_ratio`). */
  datatype Setting = Unset | IntSetting(n: nat) | FloatSetting(x: real)

  /** Python truthiness of a setting. */
  predicate Truthy(s: Setting) {
    match s
    case Unset => false
    case IntSetting(n) => n != 0
    case FloatSetting(x) => x != 0.0
  }

  /** The configuration `get_avc_df` receives besides the frame. */
  datatype AvcParams = AvcParams(
    dropna: bool,
    maxGroups: Setting,
    minGroupRatio: real,
    minGroupCount: real,
    maxSubgroups: Setting,
    minSubgroupRatio: real,
    minSubgroupCount: real,
    minSubgroupRatioVsTotal: real,
    roundRatio: Setting)

  /** The frame `get_avc_df` returns: indexed by (group, subgroup) with the
      four statistic columns, or indexed by value with a count and a ratio. */
  datatype AvcTable = Grouped(rows: seq<AvcRow>) | Ungrouped(counts: seq<CountRow>)

  /** The cap as `head` and `iloc` receive it, when it is an integer. */
  function IntCap(s: Setting): Option<nat> {
    if s.IntSetting? then Some(s.n) else None
  }

  /** The group thresholds (the group column, or the only column). */
  function GroupBucketing(p: AvcParams): BucketParams {
    BucketParams(IntCap(p.maxGroups), p.minGroupRatio, p.minGroupCount, p.dropna)
  }

  /** The category column's thresholds in grouped mode: no cap. */
  function SubgroupBucketing(p: AvcParams): BucketParams {
    BucketParams(None, p.minSubgroupRatioVsTotal, p.minSubgroupCount, p.dropna)
  }

  /** `fillna("_na")` when missing values are kept. */
  function Filled(col: seq<Value>, dropna: bool): (r: seq<Value>)
    ensures |r| == |col|
    ensures forall i | 0 <= i < |col| :: r[i] == if col[i].Missing? && !dropna then Str(NA) else col[i]
  {
    if dropna then col else FillNa(col)
  }

  /** The frame handed to `add_summary_statistics` in grouped mode. */
  function GroupedFrame(df: seq<Record>, p: AvcParams): (f: seq<Record>)
    ensures |f| == |df|
  {
    var groups := Filled(GroupUncommonValues(GroupColumn(df), GroupBucketing(p)), p.dropna);
    var cats := Filled(GroupUncommonValues(CategoryColumn(df), SubgroupBucketing(p)), p.dropna);
    Zip(groups, cats)
  }

  /** The `max_subgroups` setting makes `iloc` reject a non-zero float, once
      the lookup of `_all` has succeeded; a zero float means no cap. */
  predicate FloatSubgroupCap(p: AvcParams) {
    p.maxSubgroups.FloatSetting? && p.maxSubgroups.x != 0.0
  }

  /** The parameters of `group_uncommon_subgroups`. */
  function CollapseParams(p: AvcParams): SubgroupParams {
    SubgroupParams(IntCap(p.maxSubgroups), p.minSubgroupRatio, p.minSubgroupCount, p.minSubgroupRatioVsTotal)
  }

  /** `group_uncommon_subgroups` under the `max_subgroups` setting. */
  function CollapseStep(t: seq<Row>, p: AvcParams): Result<seq<StatRow>> {
    if FloatSubgroupCap(p) then
      if |Filter(t, InAll())| == 0 then Err(KeyError) else Err(TypeError)
    else CollapseSubgroups(t, CollapseParams(p))
  }

  /** `Series.round` rejects a float number of decimals. */
  predicate FloatRounding(p: AvcParams) {
    p.roundRatio.FloatSetting? && Truthy(p.roundRatio)
  }

  predicate HasRealRow(rows: seq<AvcRow>) {
    exists i | 0 <= i < |rows| :: rows[i].key.group != ALL
  }

  /** The table after `group_uncommon_subgroups` in grouped mode. */
  function CollapsedTable(df: seq<Record>, p: AvcParams): Result<seq<StatRow>> {
    CollapseStep(SummaryTable(GroupedFrame(df, p)), p)
  }

  /** Grouped mode. `head` rejects a float `max_groups`. Without a real row
      the difference column is never created and the final column
      selection fails. */
  function GroupedAvc(df: seq<Record>, p: AvcParams): Result<seq<AvcRow>> {
    if p.maxGroups.FloatSetting? then Err(TypeError)
    else
      var s := CollapsedTable(df, p);
      if s.Err? then Err(s.error)
      else if FloatRounding(p) then Err(TypeError)
      else Finish(s.value)
  }

  /** The regrouping, the differences and the final column selection. */
  function Finish(s: seq<StatRow>): Result<seq<AvcRow>> {
    var d := SubgroupDiff.SubgroupDiff(Merge(s));
    if d.Err? || HasRealRow(d.value) then d else Err(KeyError)
  }

  /** The column counted in ungrouped mode. */
  function UngroupedColumn(df: seq<Record>, p: AvcParams): (col: seq<Value>)
    ensures |col| == |df|
  {
    Filled(GroupUncommonValues(CategoryColumn(df), GroupBucketing(p)), p.dropna)
  }

  function IsLabel(): Value -> bool {
    (v: Value) => v.Str?
  }

  /** The cells `value_counts()` tallies: the labelled ones. */
  function Labelled(col: seq<Value>): (c: seq<Value>)
    ensures forall v | v in c :: v.Str?
  {
    Filter(col, IsLabel())
  }

  function CountIn(col: seq<Value>): Value -> int {
    (v: Value) => Count(col, v)
  }

  /** The index of `value_counts()`: each labelled value once, most frequent
      first. */
  function ValueCounts(col: seq<Value>): (vs: seq<Value>)
    ensures NoDup(vs)
    ensures forall v :: v in vs <==> v in col && v.Str?
    ensures SortedDesc(vs, CountIn(col))
  {
    SortDesc(Distinct(Labelled(col)), CountIn(col))
  }

  /** The rows of the values `vs`: count and share of the labelled cells. */
  function CountRows(col: seq<Value>, vs: seq<Value>): (rows: seq<CountRow>)
    ensures |rows| == |vs|
  {
    MapSeq(vs, (v: Value) => CountRow(Label(v), Count(col, v), Ratio(Count(col, v), |Labelled(col)|)))
  }

  /** `value_counts()` sorted by count, largest first. */
  function CountTable(col: seq<Value>): seq<CountRow> {
    CountRows(col, SortDesc(ValueCounts(col), CountIn(col)))
  }

  /** Ungrouped mode. Rounding reads a `subgroup_ratio` column that only the
      grouped table has. */
  function UngroupedAvc(df: seq<Record>, p: AvcParams): Result<seq<CountRow>> {
    if p.maxGroups.FloatSetting? then Err(TypeError)
    else if Truthy(p.roundRatio) then Err(KeyError)
    else
      Ok(CountTable(UngroupedColumn(df, p)))
  }

  /** `get_avc_df`: `grouped` says whether a group column is given. */
  function AvcDf(df: seq<Record>, grouped: bool, p: AvcParams): Result<AvcTable> {
    if grouped then
      match GroupedAvc(df, p)
      case Ok(rows) => Ok(Grouped(rows))
      case Err(e) => Err(e)
    else
      match UngroupedAvc(df, p)
      case Ok(counts) => Ok(Ungrouped(counts))
      case Err(e) => Err(e)
  }

  /** `get_avc_df`, one stage after the other on a working copy. */
  method GetAvcDf(df: seq<Record>, grouped: bool, p: AvcParams) returns (r: Result<AvcTable>)
    ensures r == AvcDf(df, grouped, p)
  {
    if p.maxGroups.FloatSetting? {
      return Err(TypeError);
    }
    if grouped {
      var groups := GroupUncommonValues(GroupColumn(df), GroupBucketing(p));
      var cats := GroupUncommonValues(CategoryColumn(df), SubgroupBucketing(p));
      if !p.dropna {
        cats := FillNa(cats);
        groups := FillNa(groups);
      }
      var t := AddSummaryStatistics(Zip(groups, cats));
      var s := CollapseStep(t, p);
      if s.Err? {
        return Err(s.error);
      }
      if FloatRounding(p) {
        return Err(TypeError);
      }
      var d := AddSubgroupDiff(Merge(s.value));
      if d.Err? {
        return Err(d.error);
      }
      if !HasRealRow(d.value) {
        return Err(KeyError);
      }
      r := Ok(Grouped(d.value));
    } else {
      var col := GroupUncommonValues(CategoryColumn(df), GroupBucketing(p));
      if !p.dropna {
        col := FillNa(col);
      }
      var vs := ValueCounts(col);
      if Truthy(p.roundRatio) {
        return Err(KeyError);
      }
      vs := SortDesc(vs, CountIn(col));
      r := Ok(Ungrouped(CountRows(col, vs)));
    }
  }

  /** Bucketing and `fillna` never produce the `_all` group name or the
      `_total` subgroup name from clean data. */
  lemma GroupedFrameLabels(df: seq<Record>, p: AvcParams)
    requires CleanData(df)
    ensures NoSummaryLabels(GroupedFrame(df, p))
  {
    var groups := GroupUncommonValues(GroupColumn(df), GroupBucketing(p));
    var cats := GroupUncommonValues(CategoryColumn(df), SubgroupBucketing(p));
    assert forall i | 0 <= i < |df| :: groups[i] == df[i].group || groups[i] == Str(OTHER);
    assert forall i | 0 <= i < |df| :: cats[i] == df[i].cat || cats[i] == Str(OTHER);
  }

  /** Without a record whose two cells are labelled, every row of the
      summary table lies in `_all`. */
  lemma NoPairsOnlyAll(df: seq<Record>, i: nat)
    requires Pairs(df) == [] && i < |SummaryTable(df)|
    ensures SummaryTable(df)[i].key.group == ALL
  {
    var t := Tabulate(df);
    assert |t| == 0 by {
      assert forall k :: k !in Keys(t);
    }
    var t1 := WithAll(df);
    assert t1 == AllPart(df) + [AllTotal(df)];
    var gs := Distinct(GroupNames(t1));
    GroupTotalsOfAll(t1, gs);
    assert SummaryTable(df)[i] == t1[i];
  }

  lemma {:induction false} GroupTotalsOfAll(t: seq<Row>, gs: seq<string>)
    requires forall i | 0 <= i < |t| :: t[i].key.group == ALL
    requires forall g | g in gs :: g in GroupNames(t)
    ensures GroupTotals(t, gs) == []
  {
    if gs != [] {
      var init := gs[..|gs| - 1];
      var g := gs[|gs| - 1];
      assert forall x | x in init :: x in gs;
      GroupTotalsOfAll(t, init);
      assert g in gs;
      var k :| 0 <= k < |t| && GroupNames(t)[k] == g;
    }
  }

  /** The stages a grouped result has passed. */
  lemma GroupedStages(df: seq<Record>, p: AvcParams)
    requires GroupedAvc(df, p).Ok?
    ensures CollapsedTable(df, p).Ok? && !FloatRounding(p)
    ensures SubgroupDiff.SubgroupDiff(Merge(CollapsedTable(df, p).value)) == GroupedAvc(df, p)
  {
    FinishOk(CollapsedTable(df, p).value);
  }

  /** A successful finish is the difference table itself. */
  lemma FinishOk(s: seq<StatRow>)
    requires Finish(s).Ok?
    ensures SubgroupDiff.SubgroupDiff(Merge(s)) == Finish(s)
  {
  }

  /** A successful collapse ran without a float cap. */
  lemma CollapseStepPlain(df: seq<Record>, p: AvcParams)
    requires CollapsedTable(df, p).Ok?
    ensures !FloatSubgroupCap(p)
    ensures CollapsedTable(df, p) == CollapseSubgroups(SummaryTable(GroupedFrame(df, p)), CollapseParams(p))
  {
  }

  /** The shape of a grouped result: sorted by (group, subgroup) with no
      key twice, at least one real row, and a difference exactly on the
      rows outside `_all`, which is the row's ratio minus that of the `_all`
      row of its subgroup. */
  predicate GroupedShape(rows: seq<AvcRow>) {
    (forall i, j | 0 <= i < j < |rows| :: KeyLess(rows[i].key, rows[j].key))
    && HasRealRow(rows)
    && (forall i | 0 <= i < |rows| :: rows[i].diff.None? <==> rows[i].key.group == ALL)
    && (forall i, j | 0 <= i < |rows| && 0 <= j < |rows| && rows[i].key.group != ALL
          && rows[j].key == Key(ALL, rows[i].key.sub) :: rows[i].diff == Some(rows[i].ratio - rows[j].ratio))
  }

  lemma DiffShape(u: seq<StatRow>, rows: seq<AvcRow>)
    requires StrictlySorted(u) && SubgroupDiff.SubgroupDiff(u) == Ok(rows) && HasRealRow(rows)
    ensures GroupedShape(rows)
  {
    DiffValues(u, rows);
    assert forall i | 0 <= i < |rows| :: rows[i].key == u[i].key;
  }

  /** Every real row's difference is taken against its `_all` row. */
  lemma DiffValues(u: seq<StatRow>, rows: seq<AvcRow>)
    requires StrictlySorted(u) && SubgroupDiff.SubgroupDiff(u) == Ok(rows)
    ensures forall i, j | 0 <= i < |rows| && 0 <= j < |rows| && rows[i].key.group != ALL
        && rows[j].key == Key(ALL, rows[i].key.sub) :: rows[i].diff == Some(rows[i].ratio - rows[j].ratio)
  {
    forall i, j | 0 <= i < |rows| && 0 <= j < |rows| && rows[i].key.group != ALL
        && rows[j].key == Key(ALL, rows[i].key.sub)
      ensures rows[i].diff == Some(rows[i].ratio - rows[j].ratio)
    {
      DiffAgainstAllRow(u, i, j);
    }
  }

  /** Every grouped result has that shape. */
  lemma GroupedOutput(df: seq<Record>, p: AvcParams)
    requires GroupedAvc(df, p).Ok?
    ensures GroupedShape(GroupedAvc(df, p).value)
  {
    GroupedStages(df, p);
    DiffShape(Merge(CollapsedTable(df, p).value), GroupedAvc(df, p).value);
  }

  /** The subgroups listed under `_all`. */
  function AllSubgroups(rows: seq<AvcRow>): set<string> {
    set i | 0 <= i < |rows| && rows[i].key.group == ALL :: rows[i].key.sub
  }

  /** The subgroups listed under the real groups. */
  function GroupSubgroups(rows: seq<AvcRow>): set<string> {
    set i | 0 <= i < |rows| && rows[i].key.group != ALL :: rows[i].key.sub
  }

  /** Whenever a grouped result is produced, `_all` lists exactly the
      subgroups that occur in the real groups. */
  lemma AllListsGroupSubgroups(df: seq<Record>, p: AvcParams)
    requires CleanData(df) && GroupedAvc(df, p).Ok?
    ensures AllSubgroups(GroupedAvc(df, p).value) == GroupSubgroups(GroupedAvc(df, p).value)
  {
    GroupedStages(df, p);
    CollapseStepPlain(df, p);
    GroupedFrameLabels(df, p);
    TableSubgroups(GroupedFrame(df, p), CollapseParams(p), CollapsedTable(df, p).value);
  }

  /** The same on the tables: after the collapse of a summary table, the
      regrouping and the differences, `_all` and the real groups list the
      same subgroups. */
  lemma TableSubgroups(f: seq<Record>, sp: SubgroupParams, s: seq<StatRow>)
    requires NoSummaryLabels(f) && CollapseSubgroups(SummaryTable(f), sp) == Ok(s)
    requires SubgroupDiff.SubgroupDiff(Merge(s)).Ok? && HasRealRow(SubgroupDiff.SubgroupDiff(Merge(s)).value)
    ensures AllSubgroups(SubgroupDiff.SubgroupDiff(Merge(s)).value)
         == GroupSubgroups(SubgroupDiff.SubgroupDiff(Merge(s)).value)
  {
    var u := Merge(s);
    var rows := SubgroupDiff.SubgroupDiff(u).value;
    var i :| 0 <= i < |rows| && rows[i].key.group != ALL;
    var m := SourceOfMerged(s, i);
    CollapsedRealRow(f, sp, s, m);
    CollapsedAllUsed(f, sp, s);
    MergedAllUsed(s);
    DiffSubgroups(u);
  }

  /** Every `_all` subgroup of a table occurs in a real group. */
  predicate AllUsed(u: seq<StatRow>) {
    forall j | 0 <= j < |u| && u[j].key.group == ALL :: u[j].key.sub in RealSubs(u)
  }

  /** The differences leave the subgroups of both sides as they are; the
      lookup guarantees the real side is covered by `_all`. */
  lemma DiffSubgroups(u: seq<StatRow>)
    requires SubgroupDiff.SubgroupDiff(u).Ok? && AllUsed(u)
    ensures AllSubgroups(SubgroupDiff.SubgroupDiff(u).value) == GroupSubgroups(SubgroupDiff.SubgroupDiff(u).value)
  {
    var rows := SubgroupDiff.SubgroupDiff(u).value;
    forall x | x in GroupSubgroups(rows) ensures x in AllSubgroups(rows) {
      var i :| 0 <= i < |rows| && rows[i].key.group != ALL && rows[i].key.sub == x;
      assert !Unmatched(u, i);
    }
    forall x | x in AllSubgroups(rows) ensures x in GroupSubgroups(rows) {
      var j :| 0 <= j < |rows| && rows[j].key.group == ALL && rows[j].key.sub == x;
      assert x in RealSubs(u);
      var n :| 0 <= n < |u| && u[n].key.group != ALL && u[n].key.sub == x;
      assert rows[n].key == u[n].key;
    }
  }

  /** Summing equal keys keeps every `_all` subgroup in use. */
  lemma MergedAllUsed(s: seq<StatRow>)
    requires AllUsed(s)
    ensures AllUsed(Merge(s))
  {
    var u := Merge(s);
    forall j | 0 <= j < |u| && u[j].key.group == ALL ensures u[j].key.sub in RealSubs(u) {
      var jj := SourceOfMerged(s, j);
      var k :| 0 <= k < |s| && s[k].key.group != ALL && s[k].key.sub == s[jj].key.sub;
      var n := MergedOfSource(s, k);
    }
  }

  /** Both passes leave every `_all` subgroup of a summary table in use. */
  lemma CollapsedAllUsed(f: seq<Record>, sp: SubgroupParams, s: seq<StatRow>)
    requires NoSummaryLabels(f) && Pairs(f) != [] && CollapseSubgroups(SummaryTable(f), sp) == Ok(s)
    ensures AllUsed(s)
  {
    forall j | 0 <= j < |s| && s[j].key.group == ALL ensures s[j].key.sub in RealSubs(s) {
      AllSubsOccurInGroups(f, sp, j);
    }
  }

  /** A real row after the collapse means a record with both cells labelled. */
  lemma CollapsedRealRow(f: seq<Record>, sp: SubgroupParams, s: seq<StatRow>, m: nat)
    requires CollapseSubgroups(SummaryTable(f), sp) == Ok(s)
    requires m < |s| && s[m].key.group != ALL
    ensures Pairs(f) != []
  {
    if Pairs(f) == [] {
      NoPairsOnlyAll(f, m);
    }
  }

  /** Settings that fail whatever the data: a float `max_groups` (`head`),
      a non-zero float `max_subgroups` (`iloc`) or a non-zero float
      `round_ratio` (`round`). */
  predicate TypeErrorSettings(p: AvcParams) {
    p.maxGroups.FloatSetting? || FloatSubgroupCap(p) || FloatRounding(p)
  }

  /** A real row whose subgroup has no `_all` row. */
  predicate MissingAllRow(s: seq<StatRow>) {
    exists i | 0 <= i < |s| :: s[i].key.group != ALL && Key(ALL, s[i].key.sub) !in KeySet(s)
  }

  predicate HasRealStat(s: seq<StatRow>) {
    exists i | 0 <= i < |s| :: s[i].key.group != ALL
  }

  /** Grouped mode fails with `TypeError` exactly for the float settings
      and for a cap on subgroups when no record has both cells labelled;
      with `KeyError` exactly when, otherwise, no record has both cells
      labelled or a real row's subgroup lost its `_all` row. */
  lemma GroupedErrors(df: seq<Record>, p: AvcParams)
    requires CleanData(df)
    ensures var f := GroupedFrame(df, p);
      (GroupedAvc(df, p) == Err(TypeError)
       <==> TypeErrorSettings(p) || (Capped(CollapseParams(p)) && Pairs(f) == []))
    ensures var f := GroupedFrame(df, p);
      (GroupedAvc(df, p) == Err(KeyError)
       <==> !TypeErrorSettings(p)
            && ((Pairs(f) == [] && !Capped(CollapseParams(p)))
                || (Pairs(f) != [] && CollapsedTable(df, p).Ok? && MissingAllRow(CollapsedTable(df, p).value))))
  {
    var f := GroupedFrame(df, p);
    var sp := CollapseParams(p);
    GroupedFrameLabels(df, p);
    CollapseErrors(f, sp);
    if !p.maxGroups.FloatSetting? && !FloatSubgroupCap(p) && CollapsedTable(df, p).Ok? {
      var s := CollapsedTable(df, p).value;
      CollapsedHasReal(f, sp, s);
      DiffErrors(s);
    }
  }

  /** After the collapse of a summary table, a real row remains exactly when
      a record has both cells labelled. */
  lemma CollapsedHasReal(f: seq<Record>, sp: SubgroupParams, s: seq<StatRow>)
    requires NoSummaryLabels(f) && CollapseSubgroups(SummaryTable(f), sp) == Ok(s)
    ensures HasRealStat(s) <==> Pairs(f) != []
  {
    if HasRealStat(s) {
      var m :| 0 <= m < |s| && s[m].key.group != ALL;
      CollapsedRealRow(f, sp, s, m);
    }
    if Pairs(f) != [] {
      var i := SomeGroupTotal(f);
      assert s[i].key.group != ALL;
    }
  }

  /** The regrouping and the differences fail exactly when the table is
      empty or a real row's subgroup has no `_all` row; otherwise a real row comes out exactly
      when one went in. */
  lemma DiffErrors(s: seq<StatRow>)
    ensures SubgroupDiff.SubgroupDiff(Merge(s)).Err? <==> s == [] || MissingAllRow(s)
    ensures SubgroupDiff.SubgroupDiff(Merge(s)).Ok? ==>
      (HasRealRow(SubgroupDiff.SubgroupDiff(Merge(s)).value) <==> HasRealStat(s))
  {
    var u := Merge(s);
    if MissingAllRow(s) {
      var i :| 0 <= i < |s| && s[i].key.group != ALL && Key(ALL, s[i].key.sub) !in KeySet(s);
      var n := MergedOfSource(s, i);
      KeySetMembers(u, Key(ALL, s[i].key.sub));
      assert Unmatched(u, n);
    }
    if |u| > 0 {
      var i := SourceOfMerged(s, 0);
    }
    if |s| > 0 {
      var n := MergedOfSource(s, 0);
      if NoAllRow(u) {
        var i := SourceOfMerged(s, n);
        KeySetMembers(u, Key(ALL, u[n].key.sub));
        assert Unmatched(u, n);
      }
    }
    if n :| 0 <= n < |u| && Unmatched(u, n) {
      var i := SourceOfMerged(s, n);
      KeySetMembers(u, Key(ALL, s[i].key.sub));
      assert s[i].key.group != ALL && Key(ALL, s[i].key.sub) !in KeySet(s);
    }
    if SubgroupDiff.SubgroupDiff(u).Ok? {
      var rows := SubgroupDiff.SubgroupDiff(u).value;
      if HasRealRow(rows) {
        var n :| 0 <= n < |rows| && rows[n].key.group != ALL;
        var i := SourceOfMerged(s, n);
      }
      if HasRealStat(s) {
        var i :| 0 <= i < |s| && s[i].key.group != ALL;
        var n := MergedOfSource(s, i);
        assert rows[n].key.group != ALL;
      }
    }
  }

  /** Only `_other` can lose its `_all` row: every other subgroup that a
      real group keeps after the collapse still has one. */
  lemma MissingAllRowIsOther(df: seq<Record>, p: AvcParams, i: nat)
    requires CleanData(df) && CollapsedTable(df, p).Ok?
    requires i < |CollapsedTable(df, p).value|
    requires CollapsedTable(df, p).value[i].key.group != ALL
    requires Key(ALL, CollapsedTable(df, p).value[i].key.sub) !in KeySet(CollapsedTable(df, p).value)
    ensures CollapsedTable(df, p).value[i].key.sub == OTHER
  {
    CollapseStepPlain(df, p);
    GroupedFrameLabels(df, p);
    var s := CollapsedTable(df, p).value;
    if s[i].key.sub != OTHER {
      KeptSubsHaveAllRow(GroupedFrame(df, p), CollapseParams(p), i);
      KeySetMembers(s, Key(ALL, s[i].key.sub));
    }
  }
}
