/** Collapse of rare subgroups (`group_uncommon_subgroups`): every row gets
    its count relative to the largest count, then two renaming passes run
    over the subgroup level of the index. The first renames, in the real
    groups, each subgroup that misses a threshold or lies outside the global
    `max_subgroups` list; the second renames the `_all` subgroups that no
    real group uses any more. */
module SubgroupCollapse {
  import opened Seqs
  import opened Frames
  import opened SummaryStatistics

  /** The subgroup thresholds. `maxSubgroups` is an integer cap or none; a
      float cap never reaches this stage (`AvcPipeline` reports it). */
  datatype SubgroupParams = SubgroupParams(
    maxSubgroups: Option<nat>,
    minRatio: real,
    minCount: real,
    minRatioVsTotal: real)

  /** `if max_subgroups:` — both none and 0 mean no cap. */
  predicate Capped(p: SubgroupParams) {
    p.maxSubgroups.Some? && p.maxSubgroups.value != 0
  }

  /** The largest count of the table. */
  function MaxCount(t: seq<Row>): (m: nat)
    ensures forall i | 0 <= i < |t| :: t[i].count <= m
    ensures t != [] ==> exists i | 0 <= i < |t| :: t[i].count == m
    ensures t == [] ==> m == 0
  {
    if t == [] then 0
    else
      var m := MaxCount(t[..|t| - 1]);
      if t[|t| - 1].count > m then t[|t| - 1].count else m
  }

  /** The table with the `r_vs_total` column. */
  function WithRatioVsTotal(t: seq<Row>): (s: seq<StatRow>)
    ensures |s| == |t|
    ensures forall i | 0 <= i < |t| ::
      s[i].key == t[i].key && s[i].count == t[i].count && s[i].ratio == t[i].ratio
  {
    var m := MaxCount(t);
    MapSeq(t, (r: Row) => StatRow(r.key, r.count, r.ratio, Ratio(r.count, m)))
  }

  /** `r_vs_total` lies in [0, 1] and is 1 exactly for the rows of largest
      (non-zero) count. */
  lemma RatioVsTotalBounds(t: seq<Row>, i: nat)
    requires i < |t|
    ensures 0.0 <= WithRatioVsTotal(t)[i].rVsTotal <= 1.0
    ensures WithRatioVsTotal(t)[i].rVsTotal == 1.0 <==> t[i].count == MaxCount(t) > 0
  {
    var m := MaxCount(t);
    var c := t[i].count;
    var x := WithRatioVsTotal(t)[i].rVsTotal;
    assert x == Ratio(c, m);
    RatioBounds(c, m);
  }

  function IsAllRow(): StatRow -> bool {
    (r: StatRow) => r.key.group == ALL
  }

  function ByCount(): StatRow -> int {
    (r: StatRow) => r.count
  }

  /** The rows of `_all`, largest count first. */
  function RankedAll(s: seq<StatRow>): (r: seq<StatRow>)
    ensures SortedDesc(r, ByCount())
    ensures forall x :: x in r <==> x in s && x.key.group == ALL
  {
    SortDesc(Filter(s, IsAllRow()), ByCount())
  }

  function StatSubs(s: seq<StatRow>): (ss: seq<string>)
    ensures |ss| == |s|
    ensures forall i | 0 <= i < |s| :: ss[i] == s[i].key.sub
  {
    MapSeq(s, (r: StatRow) => r.key.sub)
  }

  /** The ranked `_all` rows the cap keeps: `iloc[1:n + 1]`, skipping the
      first one, which is meant to be `(_all, _total)`. */
  function TopRows(s: seq<StatRow>, n: nat): seq<StatRow> {
    Head(Drop(RankedAll(s), 1), n)
  }

  /** The global list of allowed subgroups: at most `n` subgroups of `_all`. */
  function TopSubgroups(s: seq<StatRow>, n: nat): (subs: seq<string>)
    ensures |subs| <= n
    ensures forall v | v in subs :: exists x | x in s :: x.key == Key(ALL, v)
  {
    var top := TopRows(s, n);
    forall v | v in StatSubs(top) ensures exists x | x in s :: x.key == Key(ALL, v) {
      var i :| 0 <= i < |top| && StatSubs(top)[i] == v;
      assert top[i] in RankedAll(s);
    }
    StatSubs(top)
  }

  /** The cap keeps the most frequent subgroups of `_all`: a kept row
      counts at least as much as any ranked row left out after the first. */
  lemma TopSubgroupsAreMostFrequent(s: seq<StatRow>, n: nat, x: StatRow, y: StatRow)
    requires x in TopRows(s, n)
    requires y in Drop(RankedAll(s), 1) && y !in TopRows(s, n)
    ensures x.count >= y.count
  {
    var d := Drop(RankedAll(s), 1);
    assert SortedDesc(d, ByCount()) by {
      var r := RankedAll(s);
      forall i, j | 0 <= i < j < |d| ensures ByCount()(d[i]) >= ByCount()(d[j]) {
        assert d[i] == r[i + 1] && d[j] == r[j + 1];
      }
    }
    HeadDominates(d, ByCount(), n, x, y);
  }

  /** Subgroups that pass 1 never renames. */
  predicate Protected(k: Key) {
    k.sub == NA || k.sub == TOTAL || k.group == ALL
  }

  /** A row misses a threshold or, under a cap, is not an allowed subgroup. */
  predicate Rare(r: StatRow, p: SubgroupParams, allowed: Option<seq<string>>) {
    (r.count as real) < p.minCount
    || r.ratio < p.minRatio
    || r.rVsTotal < p.minRatioVsTotal
    || (allowed.Some? && r.key.sub !in allowed.value)
  }

  function ToOther(r: StatRow): StatRow {
    r.(key := Key(r.key.group, OTHER))
  }

  /** Pass 1: rare subgroups of real groups become `_other`. */
  function FirstPass(s: seq<StatRow>, p: SubgroupParams, allowed: Option<seq<string>>): (s1: seq<StatRow>)
    ensures |s1| == |s|
    ensures forall i | 0 <= i < |s| :: s1[i] == s[i] || s1[i] == ToOther(s[i])
  {
    MapSeq(s, (r: StatRow) => if Rare(r, p, allowed) && !Protected(r.key) then ToOther(r) else r)
  }

  /** A row leaves pass 1 with the subgroup `_other` exactly when it had it
      already or it is rare and not protected; protected rows are untouched. */
  lemma FirstPassRenames(s: seq<StatRow>, p: SubgroupParams, allowed: Option<seq<string>>, i: nat)
    requires i < |s|
    ensures FirstPass(s, p, allowed)[i].key.sub == OTHER
        <==> s[i].key.sub == OTHER || (Rare(s[i], p, allowed) && !Protected(s[i].key))
    ensures Protected(s[i].key) ==> FirstPass(s, p, allowed)[i] == s[i]
  {
  }

  /** The subgroups still used by a real group. */
  function RealSubs(s: seq<StatRow>): set<string> {
    set i | 0 <= i < |s| && s[i].key.group != ALL :: s[i].key.sub
  }

  /** Pass 2: an `_all` subgroup no real group uses becomes `_other`. */
  function SecondPass(s1: seq<StatRow>): (s2: seq<StatRow>)
    ensures |s2| == |s1|
    ensures forall i | 0 <= i < |s1| :: s1[i].key.group != ALL ==> s2[i] == s1[i]
    ensures forall i | 0 <= i < |s1| :: s2[i] == s1[i] || s2[i] == ToOther(s1[i])
    ensures forall i | 0 <= i < |s1| :: s1[i].key.group == ALL ==>
      (s2[i] == s1[i] <==> s1[i].key.sub in RealSubs(s1) || s1[i].key.sub == OTHER)
    ensures RealSubs(s2) == RealSubs(s1)
  {
    var used := RealSubs(s1);
    MapSeq(s1, (r: StatRow) => if r.key.group == ALL && r.key.sub !in used then ToOther(r) else r)
  }

  /** The list pass 1 checks subgroups against: the top of `_all` under a
      cap, every subgroup otherwise. */
  function AllowedSubs(s: seq<StatRow>, p: SubgroupParams): Option<seq<string>> {
    if Capped(p) then Some(TopSubgroups(s, p.maxSubgroups.value)) else None
  }

  /** `group_uncommon_subgroups`: looking up `_all` fails without such a
      row (`KeyError`); under a cap, a single `_all` row is returned as a
      series, which cannot be sorted by a column (`TypeError`). */
  function CollapseSubgroups(t: seq<Row>, p: SubgroupParams): (r: Result<seq<StatRow>>)
    ensures r == Err(KeyError) <==> |Filter(t, InAll())| == 0
    ensures r == Err(TypeError) <==> Capped(p) && |Filter(t, InAll())| == 1
    ensures r.Ok? ==> |r.value| == |t|
    ensures r.Ok? ==> forall i | 0 <= i < |t| ::
      r.value[i].key.group == t[i].key.group
      && r.value[i].count == t[i].count
      && r.value[i].ratio == t[i].ratio
      && (r.value[i].key.sub == t[i].key.sub || r.value[i].key.sub == OTHER)
  {
    var alls := |Filter(t, InAll())|;
    if alls == 0 then Err(KeyError)
    else if Capped(p) && alls == 1 then Err(TypeError)
    else
      var s := WithRatioVsTotal(t);
      Ok(SecondPass(FirstPass(s, p, AllowedSubs(s, p))))
  }

  /** A row of a real group that keeps a data subgroup meets every threshold
      and, under a cap, is one of the global top subgroups. */
  lemma SurvivorsMeetThresholds(t: seq<Row>, p: SubgroupParams, i: nat)
    requires CollapseSubgroups(t, p).Ok? && i < |t|
    requires CollapseSubgroups(t, p).value[i].key.group != ALL
    requires CollapseSubgroups(t, p).value[i].key.sub !in {OTHER, NA, TOTAL}
    ensures var s := WithRatioVsTotal(t);
      (t[i].count as real) >= p.minCount
      && t[i].ratio >= p.minRatio
      && s[i].rVsTotal >= p.minRatioVsTotal
      && (Capped(p) ==> t[i].key.sub in TopSubgroups(s, p.maxSubgroups.value))
  {
    var s := WithRatioVsTotal(t);
    var allowed := AllowedSubs(s, p);
    FirstPassRenames(s, p, allowed, i);
  }

  /** `_na` and `_total` rows of real groups keep their key. */
  lemma SentinelRowsKept(t: seq<Row>, p: SubgroupParams, i: nat)
    requires CollapseSubgroups(t, p).Ok? && i < |t|
    requires t[i].key.group != ALL && t[i].key.sub in {NA, TOTAL}
    ensures CollapseSubgroups(t, p).value[i].key == t[i].key
  {
    var s := WithRatioVsTotal(t);
    FirstPassRenames(s, p, AllowedSubs(s, p), i);
  }

  /** Pass 1 leaves `_all` alone; pass 2 renames an `_all` row exactly when
      no real group uses its subgroup after pass 1. */
  lemma AllRowsKeptWhileUsed(t: seq<Row>, p: SubgroupParams, i: nat)
    requires CollapseSubgroups(t, p).Ok? && i < |t| && t[i].key.group == ALL
    ensures var s := WithRatioVsTotal(t);
      var s1 := FirstPass(s, p, AllowedSubs(s, p));
      CollapseSubgroups(t, p).value[i].key
        == if t[i].key.sub in RealSubs(s1) then t[i].key else Key(ALL, OTHER)
  {
    var s := WithRatioVsTotal(t);
    FirstPassRenames(s, p, AllowedSubs(s, p), i);
  }

  /** After pass 2, every subgroup listed under `_all` occurs in some real
      group, for a table built by `add_summary_statistics` with at least
      one real group. */
  lemma AllSubsOccurInGroups(df: seq<Record>, p: SubgroupParams, j: nat)
    requires NoSummaryLabels(df) && Pairs(df) != []
    requires CollapseSubgroups(SummaryTable(df), p).Ok?
    requires j < |SummaryTable(df)|
    requires CollapseSubgroups(SummaryTable(df), p).value[j].key.group == ALL
    ensures CollapseSubgroups(SummaryTable(df), p).value[j].key.sub
            in RealSubs(CollapseSubgroups(SummaryTable(df), p).value)
  {
    var t := SummaryTable(df);
    var s := WithRatioVsTotal(t);
    var s1 := FirstPass(s, p, AllowedSubs(s, p));
    var u := CollapseSubgroups(t, p).value;
    assert u == SecondPass(s1);
    AllRowsKeptWhileUsed(t, p, j);
    var v := t[j].key.sub;
    if v !in RealSubs(s1) {
      // `(_all, v)` stems from a real row `(g, v)`, which pass 1 renamed.
      SummaryRowKindOfAll(df, j);
      var i;
      if v == TOTAL {
        i := SomeGroupTotal(df);
      } else {
        i := RealRowOfSub(df, v);
      }
      RealRowAfterFirstPass(s, p, AllowedSubs(s, p), i);
    }
  }

  /** A real row keeps its group through pass 1 and ends with its own
      subgroup, which for `_total` is certain, or with `_other`. */
  lemma RealRowAfterFirstPass(s: seq<StatRow>, p: SubgroupParams, allowed: Option<seq<string>>, i: nat)
    requires i < |s| && s[i].key.group != ALL
    ensures s[i].key.sub in RealSubs(FirstPass(s, p, allowed))
         || (s[i].key.sub != TOTAL && OTHER in RealSubs(FirstPass(s, p, allowed)))
  {
    var s1 := FirstPass(s, p, allowed);
    assert s1[i].key.group != ALL;
    assert s1[i].key.sub in RealSubs(s1);
  }

  /** Every `_all` row is the `(_all, _total)` row or the `_all` row of a
      tabulated subgroup. */
  lemma SummaryRowKindOfAll(df: seq<Record>, j: nat)
    requires NoSummaryLabels(df) && j < |SummaryTable(df)| && SummaryTable(df)[j].key.group == ALL
    ensures SummaryTable(df)[j].key.sub == TOTAL || SummaryTable(df)[j].key.sub in Subs(Tabulate(df))
  {
    var t := Tabulate(df);
    var a := AllPart(df);
    if j < |t| {
      SummaryIndexTab(df, j);
      TabulatedKey(df, j);
      PairClean(df, t[j].key);
    } else if j < |t| + |a| {
      SummaryIndexAll(df, j);
      var subs := Distinct(Subs(t));
      assert a[j - |t|].key.sub == subs[j - |t|];
    } else if j > |t| + |a| {
      SummaryIndexTotals(df, j);
    }
  }

  /** A tabulated subgroup has a row in a real group. */
  lemma RealRowOfSub(df: seq<Record>, v: string) returns (i: nat)
    requires NoSummaryLabels(df) && v in Subs(Tabulate(df))
    ensures i < |SummaryTable(df)| && SummaryTable(df)[i].key.group != ALL && SummaryTable(df)[i].key.sub == v
  {
    i := SubIndex(Tabulate(df), v);
    TabulatedKey(df, i);
    PairClean(df, Tabulate(df)[i].key);
    SummaryIndexTab(df, i);
  }

  /** Every data subgroup a real group keeps has an `_all` row after both
      passes: the `_all` row of a subgroup survives while a real group uses
      it. */
  lemma KeptSubsHaveAllRow(df: seq<Record>, p: SubgroupParams, i: nat)
    requires NoSummaryLabels(df)
    requires CollapseSubgroups(SummaryTable(df), p).Ok?
    requires i < |SummaryTable(df)|
    requires CollapseSubgroups(SummaryTable(df), p).value[i].key.group != ALL
    requires CollapseSubgroups(SummaryTable(df), p).value[i].key.sub != OTHER
    ensures exists j | 0 <= j < |SummaryTable(df)| ::
      CollapseSubgroups(SummaryTable(df), p).value[j].key
        == Key(ALL, CollapseSubgroups(SummaryTable(df), p).value[i].key.sub)
  {
    var t := SummaryTable(df);
    var s := WithRatioVsTotal(t);
    var s1 := FirstPass(s, p, AllowedSubs(s, p));
    var u := CollapseSubgroups(t, p).value;
    var v := u[i].key.sub;
    assert v == t[i].key.sub;
    assert v in RealSubs(s1);
    var j := AllRowIndexOf(df, i);
    AllRowsKeptWhileUsed(t, p, j);
  }

  /** The `_all` row that matches the subgroup of a real-group row. */
  lemma AllRowIndexOf(df: seq<Record>, i: nat) returns (j: nat)
    requires NoSummaryLabels(df) && i < |SummaryTable(df)| && SummaryTable(df)[i].key.group != ALL
    ensures j < |SummaryTable(df)| && SummaryTable(df)[j].key == Key(ALL, SummaryTable(df)[i].key.sub)
  {
    var t := SummaryTable(df);
    SummaryRowKind(df, i);
    if t[i].key.sub == TOTAL {
      InSummaryTable(df, AllTotal(df));
      j :| 0 <= j < |t| && t[j] == AllTotal(df);
    } else {
      ObservedKey(df, t[i].key);
      AllRowOfSub(df, t[i].key.sub);
      j :| 0 <= j < |t| && t[j] == AllRow(Cats(df), t[i].key.sub);
    }
  }

  /** On a table built by `add_summary_statistics` only the cap can fail,
      and only when no record has both cells labelled. */
  lemma CollapseErrors(df: seq<Record>, p: SubgroupParams)
    ensures CollapseSubgroups(SummaryTable(df), p).Err?
        <==> Capped(p) && Pairs(df) == []
    ensures CollapseSubgroups(SummaryTable(df), p) != Err(KeyError)
  {
    AllGroupSize(df);
  }
}
