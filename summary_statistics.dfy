/** The grouped frequency table with its summary rows
    (`add_summary_statistics`, grouped mode): counts and within-group
    ratios per (group, category), an `_all` pseudo-group holding the
    whole-dataset counts, and a `_total` row in every group. */
module SummaryStatistics {
  import opened Seqs
  import opened Frames

  /** The records hold neither the `_all` group name nor the `_total`
      subgroup name. */
  predicate NoSummaryLabels(df: seq<Record>) {
    forall i | 0 <= i < |df| :: df[i].group != Str(ALL) && df[i].cat != Str(TOTAL)
  }

  /** The labelled category cells, which both ungrouped `value_counts` tally. */
  function Cats(df: seq<Record>): (c: seq<Value>)
    ensures forall v | v in c :: v.Str?
  {
    if df == [] then []
    else
      var r := df[|df| - 1];
      Cats(df[..|df| - 1]) + (if r.cat.Str? then [r.cat] else [])
  }

  /** The (group, category) key of every record whose two cells are
      labelled: `groupby` drops missing group keys and `value_counts` drops
      missing categories. */
  function Pairs(df: seq<Record>): (ps: seq<Key>)
    ensures forall k: Key :: k in ps <==> Record(Str(k.group), Str(k.sub)) in df
  {
    if df == [] then []
    else
      var r := df[|df| - 1];
      var init := df[..|df| - 1];
      assert df == init + [r];
      Pairs(init) + (if r.group.Str? && r.cat.Str? then [Key(r.group.s, r.cat.s)] else [])
  }

  /** Every record with a labelled category also has a labelled group, as
      when `fillna` has run on the group column. */
  predicate NoMissingGroups(df: seq<Record>) {
    forall i | 0 <= i < |df| :: df[i].cat.Str? ==> df[i].group.Str?
  }

  /** Then `groupby` loses no labelled category: per subgroup, the grouped
      tallies add up to the ungrouped one. */
  lemma {:induction false} PairsCoverCats(df: seq<Record>, v: string)
    requires NoMissingGroups(df)
    ensures |Filter(Pairs(df), HasSub(v))| == Count(Cats(df), Str(v))
    ensures |Pairs(df)| == |Cats(df)|
  {
    if df != [] {
      var init := df[..|df| - 1];
      var r := df[|df| - 1];
      PairsCoverCats(init, v);
      var ps := Pairs(init);
      if r.cat.Str? {
        var k := Key(r.group.s, r.cat.s);
        assert Pairs(df) == ps + [k];
        assert Cats(df) == Cats(init) + [r.cat];
        FilterSnoc(ps, k, HasSub(v));
      } else {
        assert Pairs(df) == ps;
        assert Cats(df) == Cats(init);
      }
    }
  }

  /** The labelled categories of group `g`: the denominator of its ratios. */
  function GroupSize(ps: seq<Key>, g: string): nat {
    |Filter(ps, InGroup(g))|
  }

  /** The two grouped `value_counts` side by side: one row per observed key
      with its count and its share of the group. */
  function Tabulate(df: seq<Record>): (t: seq<Row>)
    ensures NoDup(Keys(t))
    ensures forall k :: k in Keys(t) <==> k in Pairs(df)
    ensures forall i | 0 <= i < |t| :: t[i].count == Count(Pairs(df), t[i].key)
    ensures forall i | 0 <= i < |t| :: t[i].ratio == Ratio(t[i].count, GroupSize(Pairs(df), t[i].key.group))
  {
    var ps := Pairs(df);
    var t := TallyRows(Distinct(ps), ps);
    assert Keys(t) == Distinct(ps);
    t
  }

  /** The rows of the keys `ks`, tallied over `ps`. */
  function TallyRows(ks: seq<Key>, ps: seq<Key>): (t: seq<Row>)
    ensures |t| == |ks|
    ensures forall i | 0 <= i < |ks| :: t[i].key == ks[i] && t[i].count == Count(ps, ks[i])
    ensures forall i | 0 <= i < |ks| :: t[i].ratio == Ratio(t[i].count, GroupSize(ps, ks[i].group))
  {
    if ks == [] then []
    else
      var k := ks[|ks| - 1];
      TallyRows(ks[..|ks| - 1], ps) + [Row(k, Count(ps, k), Ratio(Count(ps, k), GroupSize(ps, k.group)))]
  }

  /** The `_all` row of subgroup `v`: its whole-dataset count and ratio. */
  function AllRow(cats: seq<Value>, v: string): Row {
    Row(Key(ALL, v), Count(cats, Str(v)), Ratio(Count(cats, Str(v)), |cats|))
  }

  function AllRows(subs: seq<string>, cats: seq<Value>): (r: seq<Row>)
    ensures |r| == |subs|
    ensures forall i | 0 <= i < |subs| :: r[i] == AllRow(cats, subs[i])
  {
    MapSeq(subs, (v: string) => AllRow(cats, v))
  }

  /** The table once the `_all` rows and the `(_all, _total)` row are in. */
  function WithAll(df: seq<Record>): seq<Row> {
    Tabulate(df) + AllPart(df) + [AllTotal(df)]
  }

  /** The `_all` rows of the subgroups present. */
  function AllPart(df: seq<Record>): (a: seq<Row>)
    ensures forall i | 0 <= i < |a| :: a[i].key.group == ALL
  {
    AllRows(Distinct(Subs(Tabulate(df))), Cats(df))
  }

  /** The `(_all, _total)` row: the number of labelled category cells. */
  function AllTotal(df: seq<Record>): Row {
    Row(Key(ALL, TOTAL), |Cats(df)|, 1.0)
  }

  /** The `_total` rows appended for the groups `gs`, `_all` skipped, each
      with the sum of its group's counts in `t`. */
  function GroupTotals(t: seq<Row>, gs: seq<string>): (r: seq<Row>)
    ensures forall i | 0 <= i < |r| :: r[i].key.sub == TOTAL && r[i].key.group in gs && r[i].key.group != ALL
  {
    if gs == [] then []
    else
      var g := gs[|gs| - 1];
      GroupTotals(t, gs[..|gs| - 1])
      + (if g == ALL then [] else [Row(Key(g, TOTAL), SumIn(t, InGroup(g)), 1.0)])
  }

  /** The table `add_summary_statistics` returns. */
  function SummaryTable(df: seq<Record>): seq<Row> {
    var t1 := WithAll(df);
    t1 + GroupTotals(t1, Distinct(GroupNames(t1)))
  }

  /** The group totals of other groups add nothing to the sum of group `g`. */
  lemma {:induction false} GroupTotalsElsewhere(t: seq<Row>, gs: seq<string>, g: string)
    requires g !in gs
    ensures SumIn(GroupTotals(t, gs), InGroup(g)) == 0
  {
    var r := GroupTotals(t, gs);
    SumInNone(r, InGroup(g));
  }

  /** The first loop: an `_all` row, with the whole-dataset count and
      ratio, for every subgroup present. */
  method AddAllRows(t: seq<Row>, subs: seq<string>, cats: seq<Value>) returns (u: seq<Row>)
    ensures u == t + AllRows(subs, cats)
  {
    u := t;
    var i := 0;
    while i < |subs|
      invariant i <= |subs|
      invariant u == t + AllRows(subs[..i], cats)
    {
      AllRowsSnoc(subs, i, cats);
      AppendAssoc(t, AllRows(subs[..i], cats), AllRow(cats, subs[i]));
      u := u + [AllRow(cats, subs[i])];
      i := i + 1;
    }
    assert subs[..i] == subs;
  }

  /** The second loop: a `_total` row for every group but `_all`, whose
      count is the sum of the group's rows at that moment. */
  method AddGroupTotals(t: seq<Row>, groups: seq<string>) returns (u: seq<Row>)
    requires NoDup(groups)
    ensures u == t + GroupTotals(t, groups)
  {
    u := t;
    var j := 0;
    while j < |groups|
      invariant j <= |groups|
      invariant u == t + GroupTotals(t, groups[..j])
    {
      var g := groups[j];
      GroupTotalsStep(t, groups, j);
      if g != ALL {
        ghost var done := GroupTotals(t, groups[..j]);
        assert g !in groups[..j];
        GroupTotalsElsewhere(t, groups[..j], g);
        SumInAppend(t, done, InGroup(g));
        var row := Row(Key(g, TOTAL), SumIn(u, InGroup(g)), 1.0);
        assert row == Row(Key(g, TOTAL), SumIn(t, InGroup(g)), 1.0);
        AppendAssoc(t, done, row);
        u := u + [row];
      }
      j := j + 1;
    }
    assert groups[..j] == groups;
  }

  /** `add_summary_statistics` in grouped mode. */
  method AddSummaryStatistics(df: seq<Record>) returns (t: seq<Row>)
    ensures t == SummaryTable(df)
  {
    var cats := Cats(df);
    t := Tabulate(df);
    t := AddAllRows(t, Distinct(Subs(t)), cats);
    t := t + [Row(Key(ALL, TOTAL), |cats|, 1.0)];
    assert t == WithAll(df);
    t := AddGroupTotals(t, Distinct(GroupNames(t)));
  }

  lemma AppendAssoc(a: seq<Row>, b: seq<Row>, x: Row)
    ensures (a + b) + [x] == a + (b + [x])
  {
  }

  lemma AllRowsSnoc(subs: seq<string>, i: nat, cats: seq<Value>)
    requires i < |subs|
    ensures AllRows(subs[..i + 1], cats) == AllRows(subs[..i], cats) + [AllRow(cats, subs[i])]
  {
  }

  lemma GroupTotalsStep(t: seq<Row>, gs: seq<string>, j: nat)
    requires j < |gs|
    ensures gs[j] == ALL ==> GroupTotals(t, gs[..j + 1]) == GroupTotals(t, gs[..j])
    ensures gs[j] != ALL ==>
      GroupTotals(t, gs[..j + 1]) == GroupTotals(t, gs[..j]) + [Row(Key(gs[j], TOTAL), SumIn(t, InGroup(gs[j])), 1.0)]
  {
    assert gs[..j + 1] == gs[..j] + [gs[j]];
    GroupTotalsSnoc(t, gs[..j], gs[j]);
  }

  lemma GroupTotalsSnoc(t: seq<Row>, gs: seq<string>, g: string)
    ensures GroupTotals(t, gs + [g])
         == GroupTotals(t, gs) + (if g == ALL then [] else [Row(Key(g, TOTAL), SumIn(t, InGroup(g)), 1.0)])
  {
    assert (gs + [g])[..|gs|] == gs;
  }

  /** Over the keys `keep` selects, the counts of a table that tallies `ps`
      add up to the number of selected entries of `ps`. */
  lemma {:induction false} SumInCounts(t: seq<Row>, ps: seq<Key>, keep: Key -> bool)
    requires forall i | 0 <= i < |t| :: t[i].count == Count(ps, t[i].key)
    ensures SumIn(t, keep) == SumCounts(Keys(t), Filter(ps, keep))
  {
    if t != [] {
      var init := t[..|t| - 1];
      SumInCounts(init, ps, keep);
      assert Keys(t)[..|t| - 1] == Keys(init);
    }
  }

  /** The grouped tallies lose nothing: the counts of any selection of keys
      add up to the number of records with such a key. */
  lemma TabulateSum(df: seq<Record>, keep: Key -> bool)
    ensures SumIn(Tabulate(df), keep) == |Filter(Pairs(df), keep)|
  {
    var ps := Pairs(df);
    SumInCounts(Tabulate(df), ps, keep);
    SumCountsIsLength(Keys(Tabulate(df)), Filter(ps, keep));
  }

  /** The rows added after the tabulation all belong to `_all`. */
  lemma WithAllGroupSum(df: seq<Record>, g: string)
    requires g != ALL
    ensures SumIn(WithAll(df), InGroup(g)) == SumIn(Tabulate(df), InGroup(g))
  {
    var t := Tabulate(df);
    var a := AllPart(df);
    var tot := [AllTotal(df)];
    SumInAppend(t + a, tot, InGroup(g));
    SumInAppend(t, a, InGroup(g));
    SumInNone(a, InGroup(g));
    SumInNone(tot, InGroup(g));
  }

  lemma {:induction false} GroupTotalsHas(t: seq<Row>, gs: seq<string>, g: string)
    requires g in gs && g != ALL
    ensures Row(Key(g, TOTAL), SumIn(t, InGroup(g)), 1.0) in GroupTotals(t, gs)
  {
    var init := gs[..|gs| - 1];
    assert gs == init + [gs[|gs| - 1]];
    if gs[|gs| - 1] != g {
      GroupTotalsHas(t, init, g);
    }
  }

  /** Each real group `g` gets a `(g, _total)` row with ratio 1 whose count
      is the sum of the counts of `g`'s subgroups, which is the number of
      records of `g` with a labelled category. */
  lemma GroupTotalRow(df: seq<Record>, g: string, v: string)
    requires NoSummaryLabels(df) && Record(Str(g), Str(v)) in df
    ensures SumIn(Tabulate(df), InGroup(g)) == GroupSize(Pairs(df), g)
    ensures Row(Key(g, TOTAL), GroupSize(Pairs(df), g), 1.0) in SummaryTable(df)
  {
    var t := Tabulate(df);
    var t1 := WithAll(df);
    TabulateSum(df, InGroup(g));
    var j :| 0 <= j < |df| && df[j] == Record(Str(g), Str(v));
    assert g != ALL;
    WithAllGroupSum(df, g);
    ObservedGroup(df, g, v);
    GroupTotalsHas(t1, Distinct(GroupNames(t1)), g);
  }

  /** A labelled record's group and category appear in the index. */
  lemma ObservedGroup(df: seq<Record>, g: string, v: string)
    requires Record(Str(g), Str(v)) in df
    ensures g in GroupNames(WithAll(df))
    ensures v in Subs(Tabulate(df))
  {
    var t := Tabulate(df);
    assert Key(g, v) in Pairs(df);
    ObservedKey(df, Key(g, v));
    GroupNamesPrefix(t, AllPart(df));
    GroupNamesPrefix(t + AllPart(df), [AllTotal(df)]);
  }

  lemma ObservedKey(df: seq<Record>, k: Key)
    requires k in Pairs(df)
    ensures k.sub in Subs(Tabulate(df)) && k.group in GroupNames(Tabulate(df))
  {
    var t := Tabulate(df);
    var ks := Keys(t);
    assert k in ks;
    var i :| 0 <= i < |ks| && ks[i] == k;
    assert t[i].key == k;
    assert Subs(t)[i] == k.sub;
    assert GroupNames(t)[i] == k.group;
  }

  lemma GroupNamesPrefix(a: seq<Row>, b: seq<Row>)
    ensures forall g | g in GroupNames(a) :: g in GroupNames(a + b)
  {
    forall g | g in GroupNames(a) ensures g in GroupNames(a + b) {
      var i :| 0 <= i < |a| && GroupNames(a)[i] == g;
      assert GroupNames(a + b)[i] == g;
    }
  }

  /** Each subgroup `v` seen in a group gets an `(_all, v)` row with its
      whole-dataset count and ratio; when no group cell is missing, that
      count is the sum of `v`'s counts over the groups. */
  lemma AllRowOfSubgroup(df: seq<Record>, g: string, v: string)
    requires Record(Str(g), Str(v)) in df
    ensures AllRow(Cats(df), v) in SummaryTable(df)
    ensures NoMissingGroups(df) ==> Count(Cats(df), Str(v)) == SumIn(Tabulate(df), HasSub(v))
  {
    assert Key(g, v) in Pairs(df);
    ObservedKey(df, Key(g, v));
    AllRowOfSub(df, v);
    if NoMissingGroups(df) {
      TabulateSum(df, HasSub(v));
      PairsCoverCats(df, v);
    }
  }

  /** A subgroup of the tabulation has its `_all` row in the result. */
  lemma AllRowOfSub(df: seq<Record>, v: string)
    requires v in Subs(Tabulate(df))
    ensures AllRow(Cats(df), v) in SummaryTable(df)
  {
    var subs := Distinct(Subs(Tabulate(df)));
    var m :| 0 <= m < |subs| && subs[m] == v;
    assert AllPart(df)[m] == AllRow(Cats(df), v);
    InSummaryTable(df, AllRow(Cats(df), v));
  }

  /** Every row built before the group totals stays in the result. */
  lemma InSummaryTable(df: seq<Record>, x: Row)
    requires x in Tabulate(df) || x in AllPart(df) || x == AllTotal(df)
    ensures x in WithAll(df) && x in SummaryTable(df)
  {
    var t1 := WithAll(df);
    InLeft(x, t1, GroupTotals(t1, Distinct(GroupNames(t1))));
  }

  function PairGroups(ps: seq<Key>): (gs: seq<string>)
    ensures |gs| == |ps|
    ensures forall i | 0 <= i < |ps| :: gs[i] == ps[i].group
  {
    MapSeq(ps, (k: Key) => k.group)
  }

  lemma {:induction false} GroupSizeIsCount(ps: seq<Key>, g: string)
    ensures GroupSize(ps, g) == Count(PairGroups(ps), g)
  {
    if ps != [] {
      var init := ps[..|ps| - 1];
      assert ps == init + [ps[|ps| - 1]];
      assert PairGroups(ps) == PairGroups(init) + [ps[|ps| - 1].group];
      FilterSnoc(init, ps[|ps| - 1], InGroup(g));
      GroupSizeIsCount(init, g);
    }
  }

  lemma {:induction false} GroupTotalsSum(t: seq<Row>, gs: seq<string>, groups: seq<string>)
    requires Count(groups, ALL) == 0
    requires forall g | g in gs && g != ALL :: SumIn(t, InGroup(g)) == Count(groups, g)
    ensures SumIn(GroupTotals(t, gs), IsGroupTotal()) == SumCounts(gs, groups)
  {
    if gs != [] {
      var init := gs[..|gs| - 1];
      var g := gs[|gs| - 1];
      GroupTotalsSum(t, init, groups);
      if g != ALL {
        SumInAppend(GroupTotals(t, init), [Row(Key(g, TOTAL), SumIn(t, InGroup(g)), 1.0)], IsGroupTotal());
      } else {
        assert GroupTotals(t, gs) == GroupTotals(t, init);
      }
    }
  }

  /** When no group cell is missing, the `(_all, _total)` row holds the number
      of labelled category cells with ratio 1, and that count is the sum of
      the `_total` counts of the real groups. */
  lemma GrandTotal(df: seq<Record>)
    requires NoSummaryLabels(df) && NoMissingGroups(df)
    ensures Row(Key(ALL, TOTAL), |Cats(df)|, 1.0) in SummaryTable(df)
    ensures SumIn(SummaryTable(df), IsGroupTotal()) == |Cats(df)|
  {
    var ps := Pairs(df);
    var t1 := WithAll(df);
    var gs := Distinct(GroupNames(t1));
    var groups := PairGroups(ps);
    InSummaryTable(df, AllTotal(df));
    WithAllHasNoGroupTotal(df);
    SumInAppend(t1, GroupTotals(t1, gs), IsGroupTotal());
    assert ALL !in groups;
    forall g | g in gs && g != ALL ensures SumIn(t1, InGroup(g)) == Count(groups, g) {
      WithAllGroupSum(df, g);
      TabulateSum(df, InGroup(g));
      GroupSizeIsCount(ps, g);
    }
    GroupTotalsSum(t1, gs, groups);
    GroupsListed(df);
    SumCountsIsLength(gs, groups);
    PairsCoverCats(df, "");
  }

  /** Before the group totals are appended no row is a real group's total. */
  lemma WithAllHasNoGroupTotal(df: seq<Record>)
    requires NoSummaryLabels(df)
    ensures SumIn(WithAll(df), IsGroupTotal()) == 0
  {
    var t := Tabulate(df);
    var a := AllPart(df);
    forall i | 0 <= i < |t| ensures !IsGroupTotal()(t[i].key) {
      assert t[i].key in Keys(t);
    }
    SumInNone(t, IsGroupTotal());
    SumInNone(a, IsGroupTotal());
    SumInNone([AllTotal(df)], IsGroupTotal());
    SumInAppend(t, a, IsGroupTotal());
    SumInAppend(t + a, [AllTotal(df)], IsGroupTotal());
  }

  /** Every group of a labelled pair is one of the groups that get a total. */
  lemma GroupsListed(df: seq<Record>)
    ensures forall g | g in PairGroups(Pairs(df)) :: g in Distinct(GroupNames(WithAll(df)))
  {
    var ps := Pairs(df);
    var t := Tabulate(df);
    GroupNamesPrefix(t, AllPart(df));
    GroupNamesPrefix(t + AllPart(df), [AllTotal(df)]);
    forall g | g in PairGroups(ps) ensures g in GroupNames(t) {
      var i :| 0 <= i < |ps| && PairGroups(ps)[i] == g;
      ObservedKey(df, ps[i]);
    }
  }

  /** Every row of the result is a tallied pair, a row of `_all`, or a
      `_total` row. */
  lemma SummaryRowKind(df: seq<Record>, i: nat)
    requires i < |SummaryTable(df)|
    ensures SummaryTable(df)[i].key.group == ALL
         || SummaryTable(df)[i].key.sub == TOTAL
         || SummaryTable(df)[i].key in Pairs(df)
  {
    var n := |Tabulate(df)|;
    var m := |AllPart(df)|;
    if i < n {
      SummaryIndexTab(df, i);
      TabulatedKey(df, i);
    } else if i < n + m {
      SummaryIndexAll(df, i);
    } else if i == n + m {
      SummaryPrefix(df, i);
      assert WithAll(df)[i] == AllTotal(df);
    } else {
      SummaryIndexTotals(df, i);
    }
  }

  /** Some real group gets a `_total` row as soon as one record has both
      cells labelled. */
  lemma SomeGroupTotal(df: seq<Record>) returns (i: nat)
    requires NoSummaryLabels(df) && Pairs(df) != []
    ensures i < |SummaryTable(df)|
    ensures SummaryTable(df)[i].key.group != ALL && SummaryTable(df)[i].key.sub == TOTAL
  {
    var g, v := LabelledRecord(df);
    GroupTotalRow(df, g, v);
    var x := Row(Key(g, TOTAL), GroupSize(Pairs(df), g), 1.0);
    i :| 0 <= i < |SummaryTable(df)| && SummaryTable(df)[i] == x;
  }

  /** A record with both cells labelled, when there is one. */
  lemma LabelledRecord(df: seq<Record>) returns (g: string, v: string)
    requires NoSummaryLabels(df) && Pairs(df) != []
    ensures Record(Str(g), Str(v)) in df && g != ALL
  {
    var k := Pairs(df)[0];
    assert k in Pairs(df);
    g, v := k.group, k.sub;
    var j :| 0 <= j < |df| && df[j] == Record(Str(g), Str(v));
  }

  function InAll(): Row -> bool {
    (r: Row) => r.key.group == ALL
  }

  /** The result always has a row in `_all`, and only the `(_all, _total)`
      row when no record has both cells labelled. */
  lemma AllGroupSize(df: seq<Record>)
    ensures |Filter(SummaryTable(df), InAll())| >= 1
    ensures |Filter(SummaryTable(df), InAll())| == 1 <==> Pairs(df) == []
  {
    var t := Tabulate(df);
    var a := AllPart(df);
    var t1 := WithAll(df);
    var st := SummaryTable(df);
    InSummaryTable(df, AllTotal(df));
    assert AllTotal(df) in Filter(st, InAll());
    if Pairs(df) == [] {
      assert t == [];
      assert a == [];
      assert t1 == [AllTotal(df)];
      assert Distinct(GroupNames(t1)) == [ALL];
      assert st == [AllTotal(df)];
    } else {
      TwoAllRows(df);
    }
  }

  lemma TwoAllRows(df: seq<Record>)
    requires Pairs(df) != []
    ensures |Filter(SummaryTable(df), InAll())| >= 2
  {
    var n := |Tabulate(df)|;
    var m := |WithAll(df)| - 1;
    AllPartNonEmpty(df);
    SummaryPrefix(df, n);
    SummaryPrefix(df, m);
    FilterTwo(SummaryTable(df), InAll(), n, m);
  }

  lemma AllPartNonEmpty(df: seq<Record>)
    requires Pairs(df) != []
    ensures |AllPart(df)| > 0
    ensures WithAll(df)[|Tabulate(df)|].key.group == ALL
    ensures WithAll(df)[|WithAll(df)| - 1].key.group == ALL
  {
    var k := Pairs(df)[0];
    assert k in Pairs(df);
    ObservedKey(df, k);
  }

  lemma SummaryPrefix(df: seq<Record>, i: nat)
    requires i < |WithAll(df)|
    ensures SummaryTable(df)[i] == WithAll(df)[i]
  {
  }

  /** Where each position of the table comes from: the tabulation, the
      `_all` rows, the `(_all, _total)` row, then the group totals. */
  lemma SummaryIndexTab(df: seq<Record>, i: nat)
    requires i < |Tabulate(df)|
    ensures i < |SummaryTable(df)| && SummaryTable(df)[i] == Tabulate(df)[i]
  {
  }

  lemma SummaryIndexAll(df: seq<Record>, i: nat)
    requires |Tabulate(df)| <= i < |Tabulate(df)| + |AllPart(df)|
    ensures i < |SummaryTable(df)| && SummaryTable(df)[i] == AllPart(df)[i - |Tabulate(df)|]
  {
  }

  lemma SummaryIndexTotals(df: seq<Record>, i: nat)
    requires |Tabulate(df)| + |AllPart(df)| < i < |SummaryTable(df)|
    ensures SummaryTable(df)[i].key.group != ALL && SummaryTable(df)[i].key.sub == TOTAL
  {
    var t1 := WithAll(df);
    var gt := GroupTotals(t1, Distinct(GroupNames(t1)));
    assert |t1| == |Tabulate(df)| + |AllPart(df)| + 1;
    TailIndex(t1, gt, i);
  }

  lemma TabulatedKey(df: seq<Record>, i: nat)
    requires i < |Tabulate(df)|
    ensures Tabulate(df)[i].key in Pairs(df)
  {
    assert Keys(Tabulate(df))[i] == Tabulate(df)[i].key;
  }

  /** Tallied pairs carry neither summary label. */
  lemma PairClean(df: seq<Record>, k: Key)
    requires NoSummaryLabels(df) && k in Pairs(df)
    ensures k.group != ALL && k.sub != TOTAL
  {
    var j :| 0 <= j < |df| && df[j] == Record(Str(k.group), Str(k.sub));
  }
}
