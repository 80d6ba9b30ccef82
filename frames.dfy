/** The values and tables that the frequency engine passes from stage to
    stage. A frame is reduced to the two columns the engine reads; a
    frequency table is a sequence of rows keyed by (group, subgroup), in
    which the sentinel labels share the key space with the data. */
module Frames {
  import opened Seqs

  /** Bucket of collapsed rare values. */
  const OTHER: string := "_other"
  /** Label of missing values when they are kept (`dropna` false). */
  const NA: string := "_na"
  /** Subgroup holding a group's total. */
  const TOTAL: string := "_total"
  /** Pseudo-group holding the whole-dataset counts. */
  const ALL: string := "_all"

  predicate IsSentinel(s: string) {
    s == OTHER || s == NA || s == TOTAL || s == ALL
  }

  /** A cell of the category or group column: missing (NaN / None) or a label. */
  datatype Value = Missing | Str(s: string)

  /** One row of the input frame: its group-column and category-column cells. */
  datatype Record = Record(group: Value, cat: Value)

  /** Data labels never coincide with a sentinel. */
  predicate CleanValue(v: Value) {
    v.Str? ==> !IsSentinel(v.s)
  }

  predicate CleanColumn(col: seq<Value>) {
    forall i | 0 <= i < |col| :: CleanValue(col[i])
  }

  predicate CleanData(df: seq<Record>) {
    forall i | 0 <= i < |df| :: CleanValue(df[i].group) && CleanValue(df[i].cat)
  }

  function GroupColumn(df: seq<Record>): (c: seq<Value>)
    ensures |c| == |df|
    ensures forall i | 0 <= i < |df| :: c[i] == df[i].group
  {
    seq(|df|, i requires 0 <= i < |df| => df[i].group)
  }

  function CategoryColumn(df: seq<Record>): (c: seq<Value>)
    ensures |c| == |df|
    ensures forall i | 0 <= i < |df| :: c[i] == df[i].cat
  {
    seq(|df|, i requires 0 <= i < |df| => df[i].cat)
  }

  /** The frame rebuilt from a group column and a category column. */
  function Zip(groups: seq<Value>, cats: seq<Value>): (df: seq<Record>)
    requires |groups| == |cats|
    ensures |df| == |cats|
    ensures forall i | 0 <= i < |df| :: df[i] == Record(groups[i], cats[i])
  {
    seq(|cats|, i requires 0 <= i < |cats| => Record(groups[i], cats[i]))
  }

  /** `fillna("_na")`: every missing cell becomes the `_na` label. */
  function FillNa(col: seq<Value>): (r: seq<Value>)
    ensures |r| == |col|
    ensures forall i | 0 <= i < |col| :: r[i] == (if col[i].Missing? then Str(NA) else col[i])
  {
    MapSeq(col, (v: Value) => if v.Missing? then Str(NA) else v)
  }

  /** The two-level index of a grouped frequency table. */
  datatype Key = Key(group: string, sub: string)

  /** A row of the table built by add_summary_statistics:
      `count` and `subgroup_ratio`. */
  datatype Row = Row(key: Key, count: nat, ratio: real)

  /** A row once group_uncommon_subgroups has added `r_vs_total`. */
  datatype StatRow = StatRow(key: Key, count: nat, ratio: real, rVsTotal: real)

  /** A row of the grouped result: `count`, `subgroup_ratio`,
      `subgr_r_diff_subgr_all` (absent for the `_all` group) and `r_vs_total`. */
  datatype AvcRow = AvcRow(key: Key, count: nat, ratio: real, diff: Option<real>, rVsTotal: real)

  /** A row of the ungrouped result: the value, its `count` and its `ratio`. */
  datatype CountRow = CountRow(value: string, count: nat, ratio: real)

  /** `n / d` as pandas divides counts; a zero denominator (only the empty
      table reaches one) gives 0, which is also what the final sum turns
      pandas' NaN into. */
  function Ratio(n: nat, d: nat): real {
    if d == 0 then 0.0 else n as real / d as real
  }

  lemma RatioNonNegative(n: nat, d: nat)
    ensures Ratio(n, d) >= 0.0
  {
  }

  /** A part of a whole is a share in [0, 1], 1 only for the whole of a
      non-empty total, and scales back to the part. */
  lemma RatioBounds(n: nat, d: nat)
    requires n <= d
    ensures 0.0 <= Ratio(n, d) <= 1.0
    ensures Ratio(n, d) == 1.0 <==> n == d > 0
    ensures Ratio(n, d) * d as real == n as real
  {
    if d != 0 {
      QuotientOfPart(n as real, d as real);
    }
  }

  lemma QuotientOfPart(x: real, y: real)
    requires 0.0 <= x <= y && 0.0 < y
    ensures 0.0 <= x / y <= 1.0
    ensures x / y == 1.0 <==> x == y
    ensures x / y * y == x
  {
  }

  /** The text pandas shows for a cell once `fillna("_na")` has run. */
  function Label(v: Value): string {
    if v.Missing? then NA else v.s
  }

  /** The labels of a clean column tell its values apart. */
  lemma LabelInjective(u: Value, v: Value)
    requires CleanValue(u) && CleanValue(v) && Label(u) == Label(v)
    ensures u == v
  {
  }

  /** The Python exceptions the engine can raise on validated settings. */
  datatype Error = KeyError | TypeError

  datatype Result<T> = Ok(value: T) | Err(error: Error)

  /** The index of a table. */
  function Keys(t: seq<Row>): (ks: seq<Key>)
    ensures |ks| == |t|
    ensures forall i | 0 <= i < |t| :: ks[i] == t[i].key
  {
    MapSeq(t, (r: Row) => r.key)
  }

  /** The level of the index holding the subgroups. */
  function Subs(t: seq<Row>): (ss: seq<string>)
    ensures |ss| == |t|
    ensures forall i | 0 <= i < |t| :: ss[i] == t[i].key.sub
  {
    MapSeq(t, (r: Row) => r.key.sub)
  }

  /** The level of the index holding the groups. */
  function GroupNames(t: seq<Row>): (gs: seq<string>)
    ensures |gs| == |t|
    ensures forall i | 0 <= i < |t| :: gs[i] == t[i].key.group
  {
    MapSeq(t, (r: Row) => r.key.group)
  }

  function InGroup(g: string): Key -> bool {
    (k: Key) => k.group == g
  }

  /** The `_total` row of a real group. */
  function IsGroupTotal(): Key -> bool {
    (k: Key) => k.group != ALL && k.sub == TOTAL
  }

  function HasSub(v: string): Key -> bool {
    (k: Key) => k.sub == v
  }

  /** Sum of the counts of the rows whose key satisfies `keep`. */
  function SumIn(t: seq<Row>, keep: Key -> bool): nat {
    if t == [] then 0
    else SumIn(t[..|t| - 1], keep) + (if keep(t[|t| - 1].key) then t[|t| - 1].count else 0)
  }

  lemma {:induction false} SumInAppend(a: seq<Row>, b: seq<Row>, keep: Key -> bool)
    ensures SumIn(a + b, keep) == SumIn(a, keep) + SumIn(b, keep)
  {
    if b != [] {
      assert (a + b)[..|a + b| - 1] == a + b[..|b| - 1];
      SumInAppend(a, b[..|b| - 1], keep);
    } else {
      assert a + b == a;
    }
  }

  lemma {:induction false} SumInNone(t: seq<Row>, keep: Key -> bool)
    requires forall i | 0 <= i < |t| :: !keep(t[i].key)
    ensures SumIn(t, keep) == 0
  {
    if t != [] {
      SumInNone(t[..|t| - 1], keep);
    }
  }

  /** The same sum over a table after group_uncommon_subgroups. */
  function SumStats(t: seq<StatRow>, keep: Key -> bool): nat {
    if t == [] then 0
    else SumStats(t[..|t| - 1], keep) + (if keep(t[|t| - 1].key) then t[|t| - 1].count else 0)
  }

  lemma {:induction false} SumStatsAppend(a: seq<StatRow>, b: seq<StatRow>, keep: Key -> bool)
    ensures SumStats(a + b, keep) == SumStats(a, keep) + SumStats(b, keep)
  {
    if b != [] {
      assert (a + b)[..|a + b| - 1] == a + b[..|b| - 1];
      SumStatsAppend(a, b[..|b| - 1], keep);
    } else {
      assert a + b == a;
    }
  }

  /** And over a grouped result. */
  function SumAvc(t: seq<AvcRow>, keep: Key -> bool): nat {
    if t == [] then 0
    else SumAvc(t[..|t| - 1], keep) + (if keep(t[|t| - 1].key) then t[|t| - 1].count else 0)
  }

  lemma TailIndex(a: seq<Row>, b: seq<Row>, i: nat)
    requires |a| <= i < |a| + |b|
    ensures (a + b)[i] == b[i - |a|]
  {
  }

  /** A position holding a given subgroup. */
  lemma SubIndex(t: seq<Row>, v: string) returns (i: nat)
    requires v in Subs(t)
    ensures i < |t| && t[i].key.sub == v
  {
    i :| 0 <= i < |t| && Subs(t)[i] == v;
  }
}
