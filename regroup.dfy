/** Re-aggregation of the collapsed table (`groupby([index, column]).sum()
    .sort_index()`): rows that now share a (group, subgroup) key are merged
    by summing their counts, ratios and `r_vs_total`, and the result is
    ordered by key the way Python orders pairs of strings. */
module Regroup {
  import opened Seqs
  import opened Frames

  /** Python's string order: code point by code point, a proper prefix first. */
  predicate StrLess(a: string, b: string)
    decreases |a|
  {
    b != [] && (a == [] || a[0] < b[0] || (a[0] == b[0] && StrLess(a[1..], b[1..])))
  }

  lemma {:induction false} StrLessIrreflexive(a: string)
    ensures !StrLess(a, a)
    decreases |a|
  {
    if a != [] {
      StrLessIrreflexive(a[1..]);
    }
  }

  lemma {:induction false} StrLessTransitive(a: string, b: string, c: string)
    requires StrLess(a, b) && StrLess(b, c)
    ensures StrLess(a, c)
    decreases |a|
  {
    if a != [] && a[0] == b[0] && b[0] == c[0] {
      StrLessTransitive(a[1..], b[1..], c[1..]);
    }
  }

  lemma {:induction false} StrLessTotal(a: string, b: string)
    requires a != b
    ensures StrLess(a, b) || StrLess(b, a)
    decreases |a|
  {
    if a != [] && b != [] && a[0] == b[0] {
      StrLessTotal(a[1..], b[1..]);
    }
  }

  /** The order of the two-level index: by group, then by subgroup. */
  predicate KeyLess(x: Key, y: Key) {
    StrLess(x.group, y.group) || (x.group == y.group && StrLess(x.sub, y.sub))
  }

  /** `KeyLess` is a strict total order. */
  lemma KeyLessOrder(x: Key, y: Key, z: Key)
    ensures !KeyLess(x, x)
    ensures KeyLess(x, y) && KeyLess(y, z) ==> KeyLess(x, z)
    ensures x != y ==> KeyLess(x, y) || KeyLess(y, x)
  {
    StrLessIrreflexive(x.group);
    StrLessIrreflexive(x.sub);
    if KeyLess(x, y) && KeyLess(y, z) {
      if StrLess(x.group, y.group) && StrLess(y.group, z.group) {
        StrLessTransitive(x.group, y.group, z.group);
      } else if x.group == y.group && y.group == z.group {
        StrLessTransitive(x.sub, y.sub, z.sub);
      }
    }
    if x != y {
      if x.group != y.group {
        StrLessTotal(x.group, y.group);
      } else {
        StrLessTotal(x.sub, y.sub);
      }
    }
  }

  /** Keys strictly increase along the table: sorted, no key twice. */
  predicate StrictlySorted(t: seq<StatRow>) {
    forall i, j | 0 <= i < j < |t| :: KeyLess(t[i].key, t[j].key)
  }

  /** Two rows of the same key summed. */
  function Plus(a: StatRow, b: StatRow): StatRow {
    StatRow(a.key, a.count + b.count, a.ratio + b.ratio, a.rVsTotal + b.rVsTotal)
  }

  /** The keys of a table. */
  function KeySet(t: seq<StatRow>): set<Key> {
    if t == [] then {} else {t[0].key} + KeySet(t[1..])
  }

  lemma {:induction false} KeySetMembers(t: seq<StatRow>, k: Key)
    ensures k in KeySet(t) <==> exists i | 0 <= i < |t| :: t[i].key == k
  {
    if t != [] {
      KeySetMembers(t[1..], k);
      if exists i | 0 <= i < |t| :: t[i].key == k {
        var i :| 0 <= i < |t| && t[i].key == k;
        if i > 0 {
          assert t[1..][i - 1].key == k;
        }
      }
    }
  }

  lemma {:induction false} KeySetAppend(a: seq<StatRow>, b: seq<StatRow>)
    ensures KeySet(a + b) == KeySet(a) + KeySet(b)
  {
    if a != [] {
      assert (a + b)[1..] == a[1..] + b;
      KeySetAppend(a[1..], b);
    } else {
      assert a + b == b;
    }
  }

  /** Adds a row to a table in key order: summed into the row of its key,
      or inserted where its key belongs. */
  function AddRow(r: StatRow, t: seq<StatRow>): (u: seq<StatRow>)
    ensures KeySet(u) == KeySet(t) + {r.key}
  {
    if t == [] then [r]
    else if t[0].key == r.key then
      assert ([Plus(t[0], r)] + t[1..])[1..] == t[1..];
      [Plus(t[0], r)] + t[1..]
    else if KeyLess(r.key, t[0].key) then
      assert ([r] + t)[1..] == t;
      [r] + t
    else
      assert ([t[0]] + AddRow(r, t[1..]))[1..] == AddRow(r, t[1..]);
      [t[0]] + AddRow(r, t[1..])
  }

  lemma {:induction false} AddRowSorted(r: StatRow, t: seq<StatRow>)
    requires StrictlySorted(t)
    ensures StrictlySorted(AddRow(r, t))
  {
    if t != [] && t[0].key == r.key {
      var u := [Plus(t[0], r)] + t[1..];
      forall i, j | 0 <= i < j < |u| ensures KeyLess(u[i].key, u[j].key) {
        assert u[i].key == t[i].key && u[j].key == t[j].key;
      }
    } else if t != [] {
      if KeyLess(r.key, t[0].key) {
        forall j | 0 <= j < |t| ensures KeyLess(r.key, t[j].key) {
          KeyLessOrder(r.key, t[0].key, t[j].key);
        }
      } else {
        KeyLessOrder(r.key, t[0].key, t[0].key);
        AddRowSorted(r, t[1..]);
        var rest := AddRow(r, t[1..]);
        forall j | 0 <= j < |rest| ensures KeyLess(t[0].key, rest[j].key) {
          KeySetMembers(rest, rest[j].key);
          if rest[j].key != r.key {
            KeySetMembers(t[1..], rest[j].key);
            var m :| 0 <= m < |t[1..]| && t[1..][m].key == rest[j].key;
            assert t[m + 1].key == rest[j].key;
          }
        }
      }
    }
  }

  /** `groupby(...).sum().sort_index()` on the collapsed table. */
  function Merge(t: seq<StatRow>): (u: seq<StatRow>)
    ensures StrictlySorted(u)
    ensures KeySet(u) == KeySet(t)
  {
    if t == [] then []
    else
      var init := t[..|t| - 1];
      var u := Merge(init);
      AddRowSorted(t[|t| - 1], u);
      KeySetAppend(init, [t[|t| - 1]]);
      assert init + [t[|t| - 1]] == t;
      AddRow(t[|t| - 1], u)
  }

  /** Sum of the ratios of the rows whose key satisfies `keep`. */
  function SumRatio(t: seq<StatRow>, keep: Key -> bool): real {
    if t == [] then 0.0
    else SumRatio(t[..|t| - 1], keep) + (if keep(t[|t| - 1].key) then t[|t| - 1].ratio else 0.0)
  }

  /** Sum of `r_vs_total` over the rows whose key satisfies `keep`. */
  function SumRvt(t: seq<StatRow>, keep: Key -> bool): real {
    if t == [] then 0.0
    else SumRvt(t[..|t| - 1], keep) + (if keep(t[|t| - 1].key) then t[|t| - 1].rVsTotal else 0.0)
  }

  /** The three sums over a selection of keys. */
  predicate SameSums(u: seq<StatRow>, t: seq<StatRow>, keep: Key -> bool) {
    SumStats(u, keep) == SumStats(t, keep)
    && SumRatio(u, keep) == SumRatio(t, keep)
    && SumRvt(u, keep) == SumRvt(t, keep)
  }

  lemma {:induction false} SumsPrepend(x: StatRow, t: seq<StatRow>, keep: Key -> bool)
    ensures SumStats([x] + t, keep) == (if keep(x.key) then x.count else 0) + SumStats(t, keep)
    ensures SumRatio([x] + t, keep) == (if keep(x.key) then x.ratio else 0.0) + SumRatio(t, keep)
    ensures SumRvt([x] + t, keep) == (if keep(x.key) then x.rVsTotal else 0.0) + SumRvt(t, keep)
  {
    if t != [] {
      var init := t[..|t| - 1];
      assert ([x] + t)[..|t|] == [x] + init;
      SumsPrepend(x, init, keep);
    } else {
      assert [x] + t == [x];
      assert [x][..0] == [];
    }
  }

  lemma {:induction false} SumsSnoc(t: seq<StatRow>, x: StatRow, keep: Key -> bool)
    ensures SumStats(t + [x], keep) == SumStats(t, keep) + (if keep(x.key) then x.count else 0)
    ensures SumRatio(t + [x], keep) == SumRatio(t, keep) + (if keep(x.key) then x.ratio else 0.0)
    ensures SumRvt(t + [x], keep) == SumRvt(t, keep) + (if keep(x.key) then x.rVsTotal else 0.0)
  {
    assert (t + [x])[..|t|] == t;
  }

  /** Adding a row adds its values to every sum that selects its key. */
  lemma {:induction false} AddRowSums(r: StatRow, t: seq<StatRow>, keep: Key -> bool)
    ensures SumStats(AddRow(r, t), keep) == SumStats(t, keep) + (if keep(r.key) then r.count else 0)
    ensures SumRatio(AddRow(r, t), keep) == SumRatio(t, keep) + (if keep(r.key) then r.ratio else 0.0)
    ensures SumRvt(AddRow(r, t), keep) == SumRvt(t, keep) + (if keep(r.key) then r.rVsTotal else 0.0)
  {
    if t == [] {
      SumsPrepend(r, [], keep);
    } else {
      assert t == [t[0]] + t[1..];
      SumsPrepend(t[0], t[1..], keep);
      if t[0].key == r.key {
        SumsPrepend(Plus(t[0], r), t[1..], keep);
      } else if KeyLess(r.key, t[0].key) {
        SumsPrepend(r, t, keep);
      } else {
        AddRowSums(r, t[1..], keep);
        SumsPrepend(t[0], AddRow(r, t[1..]), keep);
      }
    }
  }

  /** Merging keeps every sum over a selection of keys: per-group totals,
      and per key the merged row holds the sums of the rows it replaced. */
  lemma {:induction false} MergeKeepsSums(t: seq<StatRow>, keep: Key -> bool)
    ensures SameSums(Merge(t), t, keep)
  {
    if t != [] {
      var init := t[..|t| - 1];
      MergeKeepsSums(init, keep);
      AddRowSums(t[|t| - 1], Merge(init), keep);
      SumsSnoc(init, t[|t| - 1], keep);
      assert init + [t[|t| - 1]] == t;
    }
  }

  function IsKey(k: Key): Key -> bool {
    (x: Key) => x == k
  }

  /** In a table without repeated keys, the sums over one key are that
      key's row. */
  lemma {:induction false} SumsOfUniqueKey(u: seq<StatRow>, i: nat)
    requires StrictlySorted(u) && i < |u|
    ensures SumStats(u, IsKey(u[i].key)) == u[i].count
    ensures SumRatio(u, IsKey(u[i].key)) == u[i].ratio
    ensures SumRvt(u, IsKey(u[i].key)) == u[i].rVsTotal
  {
    var k := u[i].key;
    var n := |u| - 1;
    var init := u[..n];
    assert u == init + [u[n]];
    SumsSnoc(init, u[n], IsKey(k));
    if i == n {
      forall j | 0 <= j < n ensures !IsKey(k)(init[j].key) {
        KeyLessOrder(init[j].key, k, k);
      }
      NoKeySums(init, k);
    } else {
      KeyLessOrder(k, u[n].key, u[n].key);
      SumsOfUniqueKey(init, i);
    }
  }

  lemma {:induction false} NoKeySums(t: seq<StatRow>, k: Key)
    requires forall j | 0 <= j < |t| :: t[j].key != k
    ensures SumStats(t, IsKey(k)) == 0 && SumRatio(t, IsKey(k)) == 0.0 && SumRvt(t, IsKey(k)) == 0.0
  {
    if t != [] {
      NoKeySums(t[..|t| - 1], k);
    }
  }

  /** Each merged row holds, for its key, the summed count, ratio and
      `r_vs_total` of the collapsed rows with that key. */
  lemma MergedRow(t: seq<StatRow>, i: nat)
    requires i < |Merge(t)|
    ensures var m := Merge(t)[i];
      m.count == SumStats(t, IsKey(m.key))
      && m.ratio == SumRatio(t, IsKey(m.key))
      && m.rVsTotal == SumRvt(t, IsKey(m.key))
  {
    var u := Merge(t);
    MergeKeepsSums(t, IsKey(u[i].key));
    SumsOfUniqueKey(u, i);
  }

  /** A merged row's key comes from a row of the input. */
  lemma SourceOfMerged(t: seq<StatRow>, i: nat) returns (m: nat)
    requires i < |Merge(t)|
    ensures m < |t| && t[m].key == Merge(t)[i].key
  {
    var k := Merge(t)[i].key;
    KeySetMembers(Merge(t), k);
    KeySetMembers(t, k);
    m :| 0 <= m < |t| && t[m].key == k;
  }

  /** Every key of the input has its merged row. */
  lemma MergedOfSource(t: seq<StatRow>, m: nat) returns (i: nat)
    requires m < |t|
    ensures i < |Merge(t)| && Merge(t)[i].key == t[m].key
  {
    var k := t[m].key;
    KeySetMembers(Merge(t), k);
    KeySetMembers(t, k);
    i :| 0 <= i < |Merge(t)| && Merge(t)[i].key == k;
  }
}
