/** What `get_avc_df` returns without a group column: the bucketed column's
    `value_counts`, one row per labelled value, largest count first. */
module UngroupedMode {
  import opened Seqs
  import opened Frames
  import opened ValueBucketing
  import opened AvcPipeline

  /** Ungrouped mode fails only for a float `max_groups` (`head` raises
      `TypeError`) and for any rounding, which reads a column the ungrouped
      table does not have (`KeyError`). */
  lemma UngroupedErrors(df: seq<Record>, p: AvcParams)
    ensures (UngroupedAvc(df, p) == Err(TypeError)) <==> p.maxGroups.FloatSetting?
    ensures (UngroupedAvc(df, p) == Err(KeyError)) <==> !p.maxGroups.FloatSetting? && Truthy(p.roundRatio)
    ensures UngroupedAvc(df, p).Ok? ==> UngroupedAvc(df, p).value == CountTable(UngroupedColumn(df, p))
  {
  }

  /** The values the table is built from, in its order. */
  function Listed(col: seq<Value>): (vs: seq<Value>)
    ensures NoDup(vs)
    ensures forall v :: v in vs <==> v in col && v.Str?
    ensures SortedDesc(vs, CountIn(col))
    ensures CountTable(col) == CountRows(col, vs)
  {
    SortDesc(ValueCounts(col), CountIn(col))
  }

  /** Each row names a labelled value of the column, with its number of
      cells and its share of the labelled cells. */
  lemma TableRow(col: seq<Value>, i: nat)
    requires i < |CountTable(col)|
    ensures var r := CountTable(col)[i];
      Str(r.value) in col
      && r.count == Count(col, Str(r.value)) > 0
      && r.ratio == Ratio(r.count, |Labelled(col)|)
  {
    var vs := Listed(col);
    assert vs[i] in vs;
  }

  /** The rows come largest count first and name different values. */
  lemma TableOrder(col: seq<Value>, i: nat, j: nat)
    requires i < j < |CountTable(col)|
    ensures var rows := CountTable(col);
      rows[i].count >= rows[j].count && rows[i].value != rows[j].value
  {
    var vs := Listed(col);
    assert vs[i] in vs && vs[j] in vs;
  }

  /** Every labelled value of the column has a row. */
  lemma TableComplete(col: seq<Value>, v: string) returns (i: nat)
    requires Str(v) in col
    ensures i < |CountTable(col)| && CountTable(col)[i].value == v
  {
    var vs := Listed(col);
    assert Str(v) in vs;
    i :| 0 <= i < |vs| && vs[i] == Str(v);
    CountRowAt(col, vs, i);
  }

  /** The row of the `i`-th listed value. */
  lemma CountRowAt(col: seq<Value>, vs: seq<Value>, i: nat)
    requires i < |vs|
    ensures i < |CountRows(col, vs)|
    ensures CountRows(col, vs)[i] == CountRow(Label(vs[i]), Count(col, vs[i]), Ratio(Count(col, vs[i]), |Labelled(col)|))
  {
  }

  /** The `count` column summed. */
  function CountTotal(rows: seq<CountRow>): nat {
    if rows == [] then 0 else CountTotal(rows[..|rows| - 1]) + rows[|rows| - 1].count
  }

  lemma {:induction false} CountTotalOfRows(col: seq<Value>, vs: seq<Value>)
    requires forall v | v in vs :: v.Str?
    ensures CountTotal(CountRows(col, vs)) == SumCounts(vs, Labelled(col))
  {
    if vs != [] {
      var init := vs[..|vs| - 1];
      var last := vs[|vs| - 1];
      assert forall v | v in init :: v in vs;
      CountTotalOfRows(col, init);
      assert CountRows(col, vs)[..|vs| - 1] == CountRows(col, init);
      assert last in vs;
    }
  }

  /** The counts add up to the number of labelled cells. */
  lemma TableTotal(col: seq<Value>)
    ensures CountTotal(CountTable(col)) == |Labelled(col)|
  {
    var vs := Listed(col);
    CountTotalOfRows(col, vs);
    SumCountsIsLength(vs, Labelled(col));
  }

  /** A column without missing cells is labelled throughout. */
  lemma AllLabelled(col: seq<Value>)
    requires forall i | 0 <= i < |col| :: col[i].Str?
    ensures |Labelled(col)| == |col|
  {
    assert multiset(Labelled(col)) == multiset(col) by {
      forall v ensures multiset(Labelled(col))[v] == multiset(col)[v] {
        if v.Str? {
          assert Count(Labelled(col), v) == Count(col, v);
        } else {
          assert Count(Labelled(col), v) == 0;
          assert v !in col;
        }
      }
    }
    assert |Labelled(col)| == |multiset(Labelled(col))|;
  }

  /** When missing values are kept, the counts add up to the number of
      records. */
  lemma UngroupedTotal(df: seq<Record>, p: AvcParams)
    requires UngroupedAvc(df, p).Ok? && !p.dropna
    ensures CountTotal(UngroupedAvc(df, p).value) == |df|
  {
    var col := UngroupedColumn(df, p);
    UngroupedErrors(df, p);
    TableTotal(col);
    AllLabelled(col);
  }

  /** `max_groups=0` leaves only `_other` and, when missing values are
      kept, `_na`. */
  lemma UngroupedZeroCap(df: seq<Record>, p: AvcParams, i: nat)
    requires CleanData(df) && p.maxGroups == IntSetting(0)
    requires UngroupedAvc(df, p).Ok? && i < |UngroupedAvc(df, p).value|
    ensures UngroupedAvc(df, p).value[i].value in {OTHER, NA}
  {
    UngroupedErrors(df, p);
    TableZeroCap(CategoryColumn(df), GroupBucketing(p), i);
  }

  /** Under a cap of 0 the table lists no label but `_other` and `_na`. */
  lemma TableZeroCap(raw: seq<Value>, bp: BucketParams, i: nat)
    requires CleanColumn(raw) && bp.maxGroups == Some(0)
    requires i < |CountTable(Filled(GroupUncommonValues(raw, bp), bp.dropna))|
    ensures CountTable(Filled(GroupUncommonValues(raw, bp), bp.dropna))[i].value in {OTHER, NA}
  {
    var col := Filled(GroupUncommonValues(raw, bp), bp.dropna);
    TableRow(col, i);
    var v := CountTable(col)[i].value;
    var k :| 0 <= k < |col| && col[k] == Str(v);
    ZeroCapCollapsesAll(raw, bp, k);
  }

  /** A value other than `_other` and `_na` keeps the count it has in the
      input column. */
  lemma UngroupedKeepsCounts(df: seq<Record>, p: AvcParams, i: nat)
    requires CleanData(df)
    requires UngroupedAvc(df, p).Ok? && i < |UngroupedAvc(df, p).value|
    requires UngroupedAvc(df, p).value[i].value !in {OTHER, NA}
    ensures UngroupedAvc(df, p).value[i].count == Count(CategoryColumn(df), Str(UngroupedAvc(df, p).value[i].value))
  {
    UngroupedErrors(df, p);
    TableKeepsCounts(CategoryColumn(df), GroupBucketing(p), i);
  }

  lemma TableKeepsCounts(raw: seq<Value>, bp: BucketParams, i: nat)
    requires CleanColumn(raw)
    requires i < |CountTable(Filled(GroupUncommonValues(raw, bp), bp.dropna))|
    requires CountTable(Filled(GroupUncommonValues(raw, bp), bp.dropna))[i].value !in {OTHER, NA}
    ensures var r := CountTable(Filled(GroupUncommonValues(raw, bp), bp.dropna))[i];
      r.count == Count(raw, Str(r.value))
  {
    var col := Filled(GroupUncommonValues(raw, bp), bp.dropna);
    TableRow(col, i);
    KeptValueCount(raw, bp, Str(CountTable(col)[i].value));
  }

  /** In the bucketed and filled column a label other than `_other` and
      `_na` occurs as often as in the input. */
  lemma KeptValueCount(raw: seq<Value>, bp: BucketParams, x: Value)
    requires CleanColumn(raw) && x.Str? && x.s !in {OTHER, NA}
    requires x in Filled(GroupUncommonValues(raw, bp), bp.dropna)
    ensures Count(Filled(GroupUncommonValues(raw, bp), bp.dropna), x) == Count(raw, x)
  {
    var g := GroupUncommonValues(raw, bp);
    var col := Filled(g, bp.dropna);
    var k :| 0 <= k < |col| && col[k] == x;
    assert g[k] == x && raw[k] == x;
    assert g[k] == if raw[k].Str? && raw[k].s in Collapsed(raw, bp) then Str(OTHER) else raw[k];
    SurvivorKeepsCount(raw, bp, x);
    if !bp.dropna {
      var f := (z: Value) => if z.Missing? then Str(NA) else z;
      assert col == MapSeq(g, f);
      CountMapFixed(g, f, x, x);
    }
  }
}
