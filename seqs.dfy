/** Sequence utilities the frequency engine is built from: occurrence counts,
    first-occurrence de-duplication (the order in which pandas meets distinct
    values), filtering, and the stable descending sort used for every
    "largest counts first" ordering. */
module Seqs {

  datatype Option<T> = None | Some(value: T)

  /** Number of occurrences of `x` in `s`. */
  function Count<T(==,!new)>(s: seq<T>, x: T): nat {
    multiset(s)[x]
  }

  /** No element occurs twice. */
  predicate NoDup<T(==,!new)>(s: seq<T>) {
    forall i, j | 0 <= i < j < |s| :: s[i] != s[j]
  }

  /** The distinct elements of `s`, in order of first occurrence. */
  function Distinct<T(==,!new)>(s: seq<T>): (d: seq<T>)
    ensures NoDup(d)
    ensures forall x :: x in d <==> x in s
    ensures |d| <= |s|
  {
    if s == [] then []
    else
      var d := Distinct(s[..|s| - 1]);
      assert s == s[..|s| - 1] + [s[|s| - 1]];
      if s[|s| - 1] in d then d else d + [s[|s| - 1]]
  }

  /** The elements of `s` that satisfy `keep`, in order. */
  function Filter<T(==,!new)>(s: seq<T>, keep: T -> bool): (r: seq<T>)
    ensures forall x :: Count(r, x) == if keep(x) then Count(s, x) else 0
    ensures forall x :: x in r <==> x in s && keep(x)
    ensures |r| <= |s|
  {
    if s == [] then []
    else
      var r := Filter(s[..|s| - 1], keep);
      assert s == s[..|s| - 1] + [s[|s| - 1]];
      if keep(s[|s| - 1]) then r + [s[|s| - 1]] else r
  }

  /** The first `n` elements of `s`, or all of them when there are fewer
      (pandas `head(n)`). */
  function Head<T>(s: seq<T>, n: nat): (h: seq<T>)
    ensures |h| == if n <= |s| then n else |s|
    ensures forall i | 0 <= i < |h| :: h[i] == s[i]
  {
    if n <= |s| then s[..n] else s
  }

  /** `s` without its first `n` elements (the lower bound of a slice). */
  function Drop<T>(s: seq<T>, n: nat): (d: seq<T>)
    ensures |d| == if n <= |s| then |s| - n else 0
    ensures forall i | 0 <= i < |d| :: d[i] == s[i + n]
  {
    if n <= |s| then s[n..] else []
  }

  /** Largest weights first. */
  predicate SortedDesc<T>(s: seq<T>, w: T -> int) {
    forall i, j | 0 <= i < j < |s| :: w(s[i]) >= w(s[j])
  }

  /** Inserts `x` before the first element whose weight does not exceed its
      own, so that `x` stays ahead of the equal elements that follow it. */
  function InsertDesc<T(==,!new)>(x: T, s: seq<T>, w: T -> int): (r: seq<T>)
    ensures multiset(r) == multiset(s) + multiset{x}
    ensures |r| == |s| + 1
    ensures forall y :: y in r <==> y == x || y in s
  {
    if s == [] || w(s[0]) <= w(x) then [x] + s
    else
      assert s == [s[0]] + s[1..];
      [s[0]] + InsertDesc(x, s[1..], w)
  }

  lemma InsertDescSorted<T(!new)>(x: T, s: seq<T>, w: T -> int)
    requires SortedDesc(s, w)
    ensures SortedDesc(InsertDesc(x, s, w), w)
  {
    if s != [] && w(s[0]) > w(x) {
      InsertDescSorted(x, s[1..], w);
      var rest := InsertDesc(x, s[1..], w);
      forall y | y in rest ensures w(s[0]) >= w(y) {
        if y != x {
          var j :| 0 <= j < |s[1..]| && s[1..][j] == y;
          assert s[j + 1] == y;
        }
      }
    }
  }

  lemma InsertDescNoDup<T(!new)>(x: T, s: seq<T>, w: T -> int)
    ensures NoDup(s) && x !in s ==> NoDup(InsertDesc(x, s, w))
  {
    if NoDup(s) && x !in s && s != [] && w(s[0]) > w(x) {
      assert NoDup(s[1..]);
      InsertDescNoDup(x, s[1..], w);
      assert s[0] !in s[1..];
    }
  }

  /** A stable insertion sort by descending weight: pandas' `value_counts`
      and `sort_values(ascending=False)` order. Ties keep input order. */
  function SortDesc<T(==,!new)>(s: seq<T>, w: T -> int): (r: seq<T>)
    ensures multiset(r) == multiset(s)
    ensures |r| == |s|
    ensures forall y :: y in r <==> y in s
    ensures SortedDesc(r, w)
    ensures NoDup(s) ==> NoDup(r)
  {
    if s == [] then []
    else
      assert s == [s[0]] + s[1..];
      var rest := SortDesc(s[1..], w);
      InsertDescSorted(s[0], rest, w);
      assert NoDup(s) ==> NoDup(s[1..]) && s[0] !in rest;
      InsertDescNoDup(s[0], rest, w);
      InsertDesc(s[0], rest, w)
  }

  /** In a sequence sorted by descending weight, whatever lies in the first
      `k` positions weighs at least as much as anything outside them. */
  lemma HeadDominates<T(!new)>(r: seq<T>, w: T -> int, k: nat, x: T, y: T)
    requires SortedDesc(r, w)
    requires x in Head(r, k) && y in r && y !in Head(r, k)
    ensures w(x) >= w(y)
  {
    var h := Head(r, k);
    var i :| 0 <= i < |h| && h[i] == x;
    var j :| 0 <= j < |r| && r[j] == y;
    assert r[i] == x;
  }

  /** A filter leaves out at least the one rejected element it skips. */
  lemma FilterSkips<T(!new)>(s: seq<T>, keep: T -> bool, x: T)
    requires x in s && !keep(x)
    ensures |Filter(s, keep)| < |s|
  {
    var last := s[|s| - 1];
    var init := s[..|s| - 1];
    assert s == init + [last];
    if last != x {
      assert x in init;
      FilterSkips(init, keep, x);
    }
  }

  /** A sequence has at least as many positions as distinct elements. */
  lemma CardElems<T(!new)>(s: seq<T>)
    ensures |set x | x in s| <= |s|
  {
    if s != [] {
      var init := s[..|s| - 1];
      assert s == init + [s[|s| - 1]];
      assert (set x | x in s) == (set x | x in init) + {s[|s| - 1]};
      CardElems(init);
    }
  }

  /** Filtering keeps elements distinct. */
  lemma FilterNoDup<T(!new)>(s: seq<T>, keep: T -> bool)
    requires NoDup(s)
    ensures NoDup(Filter(s, keep))
  {
    if s != [] {
      var init := s[..|s| - 1];
      assert NoDup(init);
      FilterNoDup(init, keep);
    }
  }

  /** In a sequence without duplicates each member occurs exactly once. */
  lemma CountOfDistinct<T(!new)>(d: seq<T>, x: T)
    requires NoDup(d) && x in d
    ensures Count(d, x) == 1
  {
    var init := d[..|d| - 1];
    assert d == init + [d[|d| - 1]];
    assert NoDup(init);
    if d[|d| - 1] == x {
      assert x !in init;
    } else {
      CountOfDistinct(init, x);
    }
  }

  /** `f` applied to every element, in place. */
  function MapSeq<T, U>(s: seq<T>, f: T -> U): (r: seq<U>)
    ensures |r| == |s|
    ensures forall i | 0 <= i < |s| :: r[i] == f(s[i])
  {
    seq(|s|, i requires 0 <= i < |s| => f(s[i]))
  }

  /** A value that only itself maps to keeps its number of occurrences. */
  lemma {:induction false} CountMapFixed<T(!new), U(!new)>(s: seq<T>, f: T -> U, x: T, y: U)
    requires forall z :: f(z) == y <==> z == x
    ensures Count(MapSeq(s, f), y) == Count(s, x)
  {
    if s != [] {
      var init := s[..|s| - 1];
      assert s == init + [s[|s| - 1]];
      assert MapSeq(s, f) == MapSeq(init, f) + [f(s[|s| - 1])];
      CountMapFixed(init, f, x, y);
    }
  }

  /** A value nothing maps to does not occur in the image. */
  lemma {:induction false} CountMapAbsent<T(!new), U(!new)>(s: seq<T>, f: T -> U, y: U)
    requires forall z :: f(z) != y
    ensures Count(MapSeq(s, f), y) == 0
  {
    if s != [] {
      var init := s[..|s| - 1];
      assert s == init + [s[|s| - 1]];
      assert MapSeq(s, f) == MapSeq(init, f) + [f(s[|s| - 1])];
      CountMapAbsent(init, f, y);
    }
  }

  /** Sum over the entries `d[i]` of their number of occurrences in `u`. */
  function SumCounts<T(==,!new)>(d: seq<T>, u: seq<T>): nat {
    if d == [] then 0 else SumCounts(d[..|d| - 1], u) + Count(u, d[|d| - 1])
  }

  /** One more occurrence of `a` adds the number of times `a` is listed in `d`. */
  lemma {:induction false} SumCountsSnoc<T(!new)>(d: seq<T>, u: seq<T>, a: T)
    ensures SumCounts(d, u + [a]) == SumCounts(d, u) + Count(d, a)
  {
    if d != [] {
      var init := d[..|d| - 1];
      assert d == init + [d[|d| - 1]];
      SumCountsSnoc(init, u, a);
    }
  }

  /** Summing the counts of every distinct value that occurs in `u` gives `|u|`:
      the total of a frequency table is the number of cells tallied. */
  lemma {:induction false} SumCountsIsLength<T(!new)>(d: seq<T>, u: seq<T>)
    requires NoDup(d)
    requires forall x | x in u :: x in d
    ensures SumCounts(d, u) == |u|
  {
    if u == [] {
      SumCountsEmpty(d, u);
    } else {
      var init := u[..|u| - 1];
      var a := u[|u| - 1];
      assert u == init + [a];
      SumCountsIsLength(d, init);
      SumCountsSnoc(d, init, a);
      CountOfDistinct(d, a);
    }
  }

  lemma {:induction false} SumCountsEmpty<T(!new)>(d: seq<T>, u: seq<T>)
    requires u == []
    ensures SumCounts(d, u) == 0
  {
    if d != [] {
      SumCountsEmpty(d[..|d| - 1], u);
    }
  }

  /** A sequence without duplicates has as many distinct elements as positions. */
  lemma {:induction false} DistinctCard<T(!new)>(s: seq<T>)
    requires NoDup(s)
    ensures |set x | x in s| == |s|
  {
    if s != [] {
      var init := s[..|s| - 1];
      var last := s[|s| - 1];
      assert s == init + [last];
      assert (set x | x in s) == (set x | x in init) + {last};
      assert last !in init;
      DistinctCard(init);
    }
  }

  lemma FilterSnoc<T(!new)>(s: seq<T>, x: T, keep: T -> bool)
    ensures Filter(s + [x], keep) == Filter(s, keep) + if keep(x) then [x] else []
  {
    assert (s + [x])[..|s|] == s;
  }

  lemma InLeft<T>(x: T, a: seq<T>, b: seq<T>)
    requires x in a
    ensures x in a + b
  {
    var i :| 0 <= i < |a| && a[i] == x;
    assert (a + b)[i] == x;
  }

  /** Two distinct positions that pass the filter leave two elements. */
  lemma {:induction false} FilterTwo<T(!new)>(s: seq<T>, keep: T -> bool, i: nat, j: nat)
    requires i < |s| && j < |s| && i != j && keep(s[i]) && keep(s[j])
    ensures |Filter(s, keep)| >= 2
  {
    var n := |s| - 1;
    var init := s[..n];
    assert s == init + [s[n]];
    if i == n || j == n {
      var o := if i == n then j else i;
      assert s[o] in init;
      assert s[o] in Filter(init, keep);
    } else {
      FilterTwo(init, keep, i, j);
    }
  }
}
