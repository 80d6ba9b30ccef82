/** A frame on which `get_avc_df` fails with `KeyError` although every
    setting is valid: a subgroup renamed `_other` inside one group has no
    `_all` counterpart. */
module KeyErrorExample {
  import opened Seqs
  import opened Frames
  import opened ValueBucketing
  import opened SummaryStatistics
  import opened SubgroupCollapse
  import opened Regroup
  import opened AvcPipeline

  /** Without a cap and with no ratio threshold, a column in which every
      labelled value occurs often enough comes back unchanged. */
  lemma FrequentValuesKept(col: seq<Value>, bp: BucketParams)
    requires CleanColumn(col) && bp.maxGroups.None? && bp.minRatio <= 0.0
    requires forall i | 0 <= i < |col| && col[i].Str? :: Count(col, col[i]) as real >= bp.minCount
    ensures GroupUncommonValues(col, bp) == col
  {
    var r := GroupUncommonValues(col, bp);
    forall i | 0 <= i < |col| ensures r[i] == col[i] {
      if col[i].Str? {
        var c := Considered(col, bp.dropna);
        NoCapThresholdsDecide(col, bp, i);
        RatioNonNegative(Count(c, col[i]), |c|);
      }
    }
  }

  /** The frame of the `KeyError` example: group `x` holds one `v`, group
      `y` three. */
  function KeyErrorData(x: string, y: string, v: string): seq<Record> {
    [Record(Str(x), Str(v)), Record(Str(y), Str(v)), Record(Str(y), Str(v)), Record(Str(y), Str(v))]
  }

  /** Two different group labels and a subgroup label, none of them a
      sentinel. */
  predicate ExampleLabels(x: string, y: string, v: string) {
    x != y && !IsSentinel(x) && !IsSentinel(y) && !IsSentinel(v)
  }

  /** The defaults, except `min_subgroup_count=2`. */
  function KeyErrorParams(): AvcParams {
    AvcParams(false, Unset, 0.0, 1.0, Unset, 0.0, 2.0, 0.0, Unset)
  }

  lemma KeyErrorFrame(x: string, y: string, v: string)
    requires ExampleLabels(x, y, v)
    ensures GroupedFrame(KeyErrorData(x, y, v), KeyErrorParams()) == KeyErrorData(x, y, v)
    ensures Pairs(KeyErrorData(x, y, v)) == [Key(x, v), Key(y, v), Key(y, v), Key(y, v)]
  {
    var df := KeyErrorData(x, y, v);
    var p := KeyErrorParams();
    var gs := GroupColumn(df);
    var cs := CategoryColumn(df);
    assert gs == [Str(x), Str(y), Str(y), Str(y)];
    KeyErrorGroupsKept(x, y);
    assert cs == [Str(v), Str(v), Str(v), Str(v)];
    KeyErrorCatsKept(v);
    assert Zip(gs, cs) == df;
    KeyErrorPairs(x, y, v);
  }

  lemma KeyErrorGroupsKept(x: string, y: string)
    requires !IsSentinel(x) && !IsSentinel(y)
    ensures var col := [Str(x), Str(y), Str(y), Str(y)];
      Filled(GroupUncommonValues(col, BucketParams(None, 0.0, 1.0, false)), false) == col
  {
    var col := [Str(x), Str(y), Str(y), Str(y)];
    forall i | 0 <= i < |col| ensures Count(col, col[i]) as real >= 1.0 {
      assert col[i] in multiset(col);
    }
    FrequentValuesKept(col, BucketParams(None, 0.0, 1.0, false));
  }

  lemma KeyErrorCatsKept(v: string)
    requires !IsSentinel(v)
    ensures var col := [Str(v), Str(v), Str(v), Str(v)];
      Filled(GroupUncommonValues(col, BucketParams(None, 0.0, 2.0, false)), false) == col
  {
    var col := [Str(v), Str(v), Str(v), Str(v)];
    assert multiset(col)[Str(v)] == 4;
    FrequentValuesKept(col, BucketParams(None, 0.0, 2.0, false));
  }

  lemma KeyErrorPairs(x: string, y: string, v: string)
    ensures Pairs(KeyErrorData(x, y, v)) == [Key(x, v), Key(y, v), Key(y, v), Key(y, v)]
  {
    var df := KeyErrorData(x, y, v);
    var d1, d2, d3 := df[..1], df[..2], df[..3];
    assert d1[..0] == [];
    assert Pairs(d1) == [Key(x, v)];
    assert d2[..1] == d1;
    assert Pairs(d2) == [Key(x, v), Key(y, v)];
    assert d3[..2] == d2;
    assert Pairs(d3) == [Key(x, v), Key(y, v), Key(y, v)];
    assert df[..3] == d3;
  }

  lemma KeyErrorDataClean(x: string, y: string, v: string)
    requires ExampleLabels(x, y, v)
    ensures CleanData(KeyErrorData(x, y, v)) && NoSummaryLabels(KeyErrorData(x, y, v))
  {
    var df := KeyErrorData(x, y, v);
    assert CleanData(df);
    KeyErrorFrame(x, y, v);
    GroupedFrameLabels(df, KeyErrorParams());
  }

  /** The lone `v` of group `x` is below the count threshold and becomes
      `_other`. */
  lemma KeyErrorRenamed(x: string, y: string, v: string) returns (i: nat)
    requires ExampleLabels(x, y, v)
    ensures CollapseSubgroups(SummaryTable(KeyErrorData(x, y, v)), CollapseParams(KeyErrorParams())).Ok?
    ensures var s := CollapseSubgroups(SummaryTable(KeyErrorData(x, y, v)), CollapseParams(KeyErrorParams())).value;
      i < |s| && s[i].key == Key(x, OTHER)
  {
    var df := KeyErrorData(x, y, v);
    var sp := CollapseParams(KeyErrorParams());
    KeyErrorFrame(x, y, v);
    KeyErrorDataClean(x, y, v);
    CollapseErrors(df, sp);
    var tab := Tabulate(df);
    var k := Key(x, v);
    assert k in Pairs(df);
    i :| 0 <= i < |tab| && Keys(tab)[i] == k;
    SummaryIndexTab(df, i);
    assert tab[i].count == 1 by {
      assert multiset(Pairs(df))[k] == 1;
    }
    var w := WithRatioVsTotal(SummaryTable(df));
    FirstPassRenames(w, sp, AllowedSubs(w, sp), i);
  }

  /** A real row that pass 1 leaves alone keeps its subgroup in use. */
  lemma UsedAfterFirstPass(w: seq<StatRow>, sp: SubgroupParams, allowed: Option<seq<string>>, i: nat)
    requires i < |w| && w[i].key.group != ALL
    requires !Rare(w[i], sp, allowed) || Protected(w[i].key)
    ensures w[i].key.sub in RealSubs(FirstPass(w, sp, allowed))
  {
    var s1 := FirstPass(w, sp, allowed);
    assert s1[i] == w[i];
  }

  /** Without a cap and with no ratio thresholds, a real row with enough
      records keeps its subgroup through pass 1. */
  lemma CountDecidesUncapped(t: seq<Row>, sp: SubgroupParams, i: nat)
    requires !Capped(sp) && sp.minRatio <= 0.0 && sp.minRatioVsTotal <= 0.0
    requires i < |t| && t[i].key.group != ALL && t[i].count as real >= sp.minCount && t[i].ratio >= 0.0
    ensures var w := WithRatioVsTotal(t);
      t[i].key.sub in RealSubs(FirstPass(w, sp, AllowedSubs(w, sp)))
  {
    var w := WithRatioVsTotal(t);
    RatioVsTotalBounds(t, i);
    UsedAfterFirstPass(w, sp, AllowedSubs(w, sp), i);
  }

  lemma KeyErrorCounts(x: string, y: string, v: string)
    requires ExampleLabels(x, y, v)
    ensures Count(Pairs(KeyErrorData(x, y, v)), Key(x, v)) == 1
    ensures Count(Pairs(KeyErrorData(x, y, v)), Key(y, v)) == 3
    ensures forall k | k in Pairs(KeyErrorData(x, y, v)) :: k.sub == v
  {
    KeyErrorPairs(x, y, v);
    var ps := Pairs(KeyErrorData(x, y, v));
    assert multiset(ps) == multiset{Key(x, v)} + multiset{Key(y, v), Key(y, v), Key(y, v)};
  }

  /** After pass 1 a real group still uses `_total`, as every group total
      is protected. */
  lemma KeyErrorTotalUsed(x: string, y: string, v: string)
    requires ExampleLabels(x, y, v)
    ensures var t := SummaryTable(KeyErrorData(x, y, v));
      var sp := CollapseParams(KeyErrorParams());
      var w := WithRatioVsTotal(t);
      TOTAL in RealSubs(FirstPass(w, sp, AllowedSubs(w, sp)))
  {
    var df := KeyErrorData(x, y, v);
    var sp := CollapseParams(KeyErrorParams());
    var w := WithRatioVsTotal(SummaryTable(df));
    KeyErrorDataClean(x, y, v);
    assert df[0] == Record(Str(x), Str(v));
    assert Key(x, v) in Pairs(df);
    var i := SomeGroupTotal(df);
    UsedAfterFirstPass(w, sp, AllowedSubs(w, sp), i);
  }

  /** After pass 1 group `y` still uses `v`: its three `v` meet every
      threshold. */
  lemma KeyErrorSubUsed(x: string, y: string, v: string)
    requires ExampleLabels(x, y, v)
    ensures var t := SummaryTable(KeyErrorData(x, y, v));
      var sp := CollapseParams(KeyErrorParams());
      var w := WithRatioVsTotal(t);
      v in RealSubs(FirstPass(w, sp, AllowedSubs(w, sp)))
  {
    var df := KeyErrorData(x, y, v);
    var sp := CollapseParams(KeyErrorParams());
    var t := SummaryTable(df);
    var w := WithRatioVsTotal(t);
    KeyErrorCounts(x, y, v);
    var tab := Tabulate(df);
    var k := Key(y, v);
    assert k in multiset(Pairs(df));
    var m :| 0 <= m < |tab| && Keys(tab)[m] == k;
    SummaryIndexTab(df, m);
    RatioNonNegative(tab[m].count, GroupSize(Pairs(df), y));
    CountDecidesUncapped(t, sp, m);
  }

  /** Both subgroups `_all` lists are still used by a real group, so no
      `_all` row becomes `_other`. */
  lemma KeyErrorAllRows(x: string, y: string, v: string, j: nat)
    requires ExampleLabels(x, y, v)
    requires CollapseSubgroups(SummaryTable(KeyErrorData(x, y, v)), CollapseParams(KeyErrorParams())).Ok?
    requires var s := CollapseSubgroups(SummaryTable(KeyErrorData(x, y, v)), CollapseParams(KeyErrorParams())).value;
      j < |s| && s[j].key.group == ALL
    ensures CollapseSubgroups(SummaryTable(KeyErrorData(x, y, v)), CollapseParams(KeyErrorParams())).value[j].key.sub != OTHER
  {
    var df := KeyErrorData(x, y, v);
    var sp := CollapseParams(KeyErrorParams());
    var t := SummaryTable(df);
    KeyErrorDataClean(x, y, v);
    KeyErrorCounts(x, y, v);
    var tab := Tabulate(df);
    SummaryRowKindOfAll(df, j);
    var u := t[j].key.sub;
    if u != TOTAL {
      var m :| 0 <= m < |tab| && Subs(tab)[m] == u;
      TabulatedKey(df, m);
    }
    KeyErrorTotalUsed(x, y, v);
    KeyErrorSubUsed(x, y, v);
    AllRowsKeptWhileUsed(t, sp, j);
  }

  /** A real `_other` row and no `_all` row named `_other`. */
  lemma OtherWithoutAllRow(s: seq<StatRow>, i: nat)
    requires i < |s| && s[i].key.group != ALL && s[i].key.sub == OTHER
    requires forall j | 0 <= j < |s| && s[j].key.group == ALL :: s[j].key.sub != OTHER
    ensures MissingAllRow(s)
  {
    KeySetMembers(s, Key(ALL, OTHER));
  }

  /** The collapsed table of the example has a real row, `(x, _other)`,
      without an `(_all, _other)` row. */
  lemma KeyErrorCollapsed(x: string, y: string, v: string)
    requires ExampleLabels(x, y, v)
    ensures CollapseSubgroups(SummaryTable(KeyErrorData(x, y, v)), CollapseParams(KeyErrorParams())).Ok?
    ensures MissingAllRow(CollapseSubgroups(SummaryTable(KeyErrorData(x, y, v)), CollapseParams(KeyErrorParams())).value)
  {
    var i := KeyErrorRenamed(x, y, v);
    var s := CollapseSubgroups(SummaryTable(KeyErrorData(x, y, v)), CollapseParams(KeyErrorParams())).value;
    forall j | 0 <= j < |s| && s[j].key.group == ALL ensures s[j].key.sub != OTHER {
      KeyErrorAllRows(x, y, v, j);
    }
    OtherWithoutAllRow(s, i);
  }

  lemma KeyErrorMissingAllRow(x: string, y: string, v: string)
    requires ExampleLabels(x, y, v)
    ensures CollapsedTable(KeyErrorData(x, y, v), KeyErrorParams()).Ok?
    ensures MissingAllRow(CollapsedTable(KeyErrorData(x, y, v), KeyErrorParams()).value)
  {
    var df := KeyErrorData(x, y, v);
    var p := KeyErrorParams();
    KeyErrorFrame(x, y, v);
    assert CollapsedTable(df, p) == CollapseStep(SummaryTable(df), p);
    assert !FloatSubgroupCap(p);
    KeyErrorCollapsed(x, y, v);
  }

  /** With the defaults and `min_subgroup_count=2`, a frame where group `x`
      holds a single `v` and group `y` three makes the whole call fail with
      `KeyError`: the `v` of `x` becomes `_other`, but `_all` has no `_other` row
      to compare it with. */
  lemma RenamedSubgroupWithoutAllRow(x: string, y: string, v: string)
    requires ExampleLabels(x, y, v)
    ensures GroupedAvc(KeyErrorData(x, y, v), KeyErrorParams()) == Err(KeyError)
  {
    KeyErrorDataClean(x, y, v);
    KeyErrorFrame(x, y, v);
    KeyErrorMissingAllRow(x, y, v);
    GroupedErrors(KeyErrorData(x, y, v), KeyErrorParams());
  }
}
