/** The difference of each subgroup's ratio against the same subgroup in
    `_all` (`add_subgroup_diff_vs_total`). Rows of `_all` get no
    difference; `drop("_all")` fails with `KeyError` on a table without
    `_all` rows, and a real row whose subgroup has no `_all` row makes the
    lookup fail with `KeyError`. */
module SubgroupDiff {
  import opened Seqs
  import opened Frames
  import opened Regroup

  /** The `subgroup_ratio` of the `(_all, v)` row, when there is one. */
  function AllRatio(t: seq<StatRow>, v: string): (r: Option<real>)
    ensures r.None? <==> forall j | 0 <= j < |t| :: t[j].key != Key(ALL, v)
    ensures r.Some? ==> exists j | 0 <= j < |t| :: t[j].key == Key(ALL, v) && t[j].ratio == r.value
  {
    if t == [] then None
    else if t[0].key == Key(ALL, v) then Some(t[0].ratio)
    else
      var r := AllRatio(t[1..], v);
      assert forall j | 1 <= j < |t| :: t[j] == t[1..][j - 1];
      r
  }

  /** A real row that has no `_all` counterpart. */
  predicate Unmatched(t: seq<StatRow>, i: nat)
    requires i < |t|
  {
    t[i].key.group != ALL && forall j | 0 <= j < |t| :: t[j].key != Key(ALL, t[i].key.sub)
  }

  /** No row of the table belongs to `_all`, so `drop("_all")` finds
      nothing to drop. */
  predicate NoAllRow(t: seq<StatRow>) {
    forall j | 0 <= j < |t| :: t[j].key.group != ALL
  }

  /** The difference column of one row. */
  function Diff(t: seq<StatRow>, r: StatRow): Option<real> {
    if r.key.group == ALL then None
    else match AllRatio(t, r.key.sub)
      case None => None
      case Some(a) => Some(r.ratio - a)
  }

  function WithDiff(t: seq<StatRow>, r: StatRow): AvcRow {
    AvcRow(r.key, r.count, r.ratio, Diff(t, r), r.rVsTotal)
  }

  /** The result of `add_subgroup_diff_vs_total`. */
  function SubgroupDiff(t: seq<StatRow>): (r: Result<seq<AvcRow>>)
    ensures r.Err? <==> NoAllRow(t) || exists i | 0 <= i < |t| :: Unmatched(t, i)
    ensures r.Err? ==> r.error == KeyError
    ensures r.Ok? ==> |r.value| == |t|
    ensures r.Ok? ==> forall i | 0 <= i < |t| ::
      r.value[i].key == t[i].key && r.value[i].count == t[i].count
      && r.value[i].ratio == t[i].ratio && r.value[i].rVsTotal == t[i].rVsTotal
      && (r.value[i].diff.None? <==> t[i].key.group == ALL)
  {
    if NoAllRow(t) || exists i | 0 <= i < |t| :: Unmatched(t, i) then Err(KeyError)
    else
      var u := MapSeq(t, (r: StatRow) => WithDiff(t, r));
      assert forall i | 0 <= i < |t| :: (u[i].diff.None? <==> t[i].key.group == ALL) by {
        forall i | 0 <= i < |t| ensures u[i].diff.None? <==> t[i].key.group == ALL {
          assert !Unmatched(t, i);
        }
      }
      Ok(u)
  }

  /** In a table without repeated keys, a real row's difference is its
      ratio minus the ratio of the `_all` row of its subgroup. */
  lemma DiffAgainstAllRow(t: seq<StatRow>, i: nat, j: nat)
    requires StrictlySorted(t) && SubgroupDiff(t).Ok?
    requires i < |t| && j < |t| && t[i].key.group != ALL && t[j].key == Key(ALL, t[i].key.sub)
    ensures SubgroupDiff(t).value[i].diff == Some(t[i].ratio - t[j].ratio)
  {
    var v := t[i].key.sub;
    var a := AllRatio(t, v);
    var m :| 0 <= m < |t| && t[m].key == Key(ALL, v) && t[m].ratio == a.value;
    SortedKeyUnique(t, m, j);
    assert SubgroupDiff(t).value[i] == WithDiff(t, t[i]);
  }

  /** Keys strictly increase, so no two rows share one. */
  lemma SortedKeyUnique(t: seq<StatRow>, m: nat, j: nat)
    requires StrictlySorted(t) && m < |t| && j < |t| && t[m].key == t[j].key
    ensures m == j
  {
    KeyLessOrder(t[j].key, t[j].key, t[j].key);
  }

  /** `add_subgroup_diff_vs_total`: `drop("_all")` fails when there is
      no `_all` row; otherwise the rows outside `_all` are visited in
      order and each gets its difference; the first one without an `_all`
      counterpart stops the loop with `KeyError`. */
  method AddSubgroupDiff(t: seq<StatRow>) returns (r: Result<seq<AvcRow>>)
    ensures r == SubgroupDiff(t)
  {
    if NoAllRow(t) {
      return Err(KeyError);
    }
    var out := MapSeq(t, (x: StatRow) => AvcRow(x.key, x.count, x.ratio, None, x.rVsTotal));
    var i := 0;
    while i < |t|
      invariant i <= |t| && |out| == |t|
      invariant forall j | 0 <= j < i :: !Unmatched(t, j)
      invariant forall j | 0 <= j < |t| ::
        out[j] == AvcRow(t[j].key, t[j].count, t[j].ratio, if j < i then Diff(t, t[j]) else None, t[j].rVsTotal)
    {
      if t[i].key.group != ALL {
        var a := AllRatio(t, t[i].key.sub);
        if a.None? {
          assert Unmatched(t, i);
          return Err(KeyError);
        }
        out := out[i := out[i].(diff := Some(t[i].ratio - a.value))];
      }
      i := i + 1;
    }
    assert !exists j | 0 <= j < |t| :: Unmatched(t, j);
    assert out == MapSeq(t, (x: StatRow) => WithDiff(t, x));
    r := Ok(out);
  }
}
