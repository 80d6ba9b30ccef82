/** Bucketing of rare values (`group_uncommon_values`): every value of a
    column whose count is too small, whose share is too small, or which lies
    outside the `max_groups` most frequent values, is renamed `_other`. */
module ValueBucketing {
  import opened Seqs
  import opened Frames

  /** The thresholds of one call. `maxGroups` is an integer cap or none; a
      float cap never reaches this stage (`AvcPipeline` reports it). */
  datatype BucketParams = BucketParams(maxGroups: Option<nat>, minRatio: real, minCount: real, dropna: bool)

  /** The cells `value_counts(dropna)` tallies. */
  function Considered(col: seq<Value>, dropna: bool): (c: seq<Value>)
    ensures forall v :: Count(c, v) == if dropna && v.Missing? then 0 else Count(col, v)
    ensures forall v :: v in c <==> v in col && !(dropna && v.Missing?)
  {
    Filter(col, (v: Value) => !(dropna && v.Missing?))
  }

  /** How often a value is tallied. */
  function Freq(col: seq<Value>, dropna: bool): Value -> int {
    var c := Considered(col, dropna);
    (v: Value) => Count(c, v)
  }

  /** The index of `value_counts`: each tallied value once, largest count first. */
  function Tally(col: seq<Value>, dropna: bool): (t: seq<Value>)
    ensures NoDup(t)
    ensures forall v :: v in t <==> v in col && !(dropna && v.Missing?)
    ensures SortedDesc(t, Freq(col, dropna))
  {
    SortDesc(Distinct(Considered(col, dropna)), Freq(col, dropna))
  }

  /** `value_counts.sum()`. */
  function Total(col: seq<Value>, dropna: bool): nat {
    SumCounts(Tally(col, dropna), Considered(col, dropna))
  }

  /** The denominator of the ratio test is the number of tallied cells. */
  lemma TotalIsTallied(col: seq<Value>, dropna: bool)
    ensures Total(col, dropna) == |Considered(col, dropna)|
  {
    SumCountsIsLength(Tally(col, dropna), Considered(col, dropna));
  }

  function Labels(s: seq<Value>): (r: seq<string>)
    ensures |r| == |s|
    ensures forall x :: x in r <==> exists v | v in s :: Label(v) == x
  {
    MapSeq(s, Label)
  }

  /** How many of the most frequent values `head` keeps: the cap, one more
      when `_na` ranks inside a non-zero cap, or everything without a cap. */
  function Window(t: seq<Value>, maxGroups: Option<nat>): Option<nat> {
    match maxGroups
    case None => None
    case Some(n) => Some(if n != 0 && NA in Labels(Head(t, n)) then n + 1 else n)
  }

  /** The values `head` keeps. */
  function Allowed(col: seq<Value>, p: BucketParams): (a: seq<Value>)
    ensures forall v | v in a :: v in Tally(col, p.dropna)
  {
    var t := Tally(col, p.dropna);
    match Window(t, p.maxGroups)
    case None => t
    case Some(w) => Head(t, w)
  }

  /** The `groups` list: `_na` when missing values are kept, then the kept labels. */
  function Groups(col: seq<Value>, p: BucketParams): (g: seq<string>)
    ensures !p.dropna ==> NA in g
  {
    (if p.dropna then [] else [NA]) + Labels(Allowed(col, p))
  }

  /** The condition of one tallied value. */
  predicate Uncommon(col: seq<Value>, p: BucketParams, v: Value) {
    var n := Count(Considered(col, p.dropna), v);
    Ratio(n, Total(col, p.dropna)) < p.minRatio
    || (n as real) < p.minCount
    || Label(v) !in Groups(col, p)
  }

  /** `value_counts[conditions].index`: the labels to rename. */
  function Collapsed(col: seq<Value>, p: BucketParams): set<string> {
    set v | v in Tally(col, p.dropna) && Uncommon(col, p, v) :: Label(v)
  }

  /** The renamed column. The membership test runs on the raw column, whose
      missing cells never equal a label. */
  function GroupUncommonValues(col: seq<Value>, p: BucketParams): (r: seq<Value>)
    ensures |r| == |col|
    ensures forall i | 0 <= i < |col| :: r[i] == col[i] || r[i] == Str(OTHER)
    ensures forall i | 0 <= i < |col| :: col[i].Missing? ==> r[i] == Missing
  {
    var gone := Collapsed(col, p);
    MapSeq(col, (x: Value) => if x.Str? && x.s in gone then Str(OTHER) else x)
  }

  /** A labelled cell is renamed exactly when its value's count is below
      `min_count`, its share of the tallied cells is below `min_ratio`, or it
      is not among the allowed values. */
  lemma CollapseExactly(col: seq<Value>, p: BucketParams, i: nat)
    requires CleanColumn(col) && i < |col| && col[i].Str?
    ensures var c := Considered(col, p.dropna);
      (GroupUncommonValues(col, p)[i] == Str(OTHER)
       <==> (Count(c, col[i]) as real) < p.minCount
            || Ratio(Count(c, col[i]), |c|) < p.minRatio
            || col[i] !in Allowed(col, p))
  {
    var x := col[i];
    var t := Tally(col, p.dropna);
    TotalIsTallied(col, p.dropna);
    assert x in t;
    assert CleanValue(x);
    AdmittedIsAllowed(col, p, x);
    if x.s in Collapsed(col, p) {
      var v :| v in t && Uncommon(col, p, v) && Label(v) == x.s;
      assert CleanValue(v);
      LabelInjective(v, x);
    } else {
      assert !Uncommon(col, p, x);
    }
  }

  /** For a labelled value, being in `groups` means being kept by `head`. */
  lemma AdmittedIsAllowed(col: seq<Value>, p: BucketParams, x: Value)
    requires CleanColumn(col) && CleanValue(x) && x.Str?
    ensures Label(x) in Groups(col, p) <==> x in Allowed(col, p)
  {
    var a := Allowed(col, p);
    if Label(x) in Labels(a) {
      var v :| v in a && Label(v) == Label(x);
      assert v in col;
      LabelInjective(v, x);
    }
    if x in a {
      assert Label(x) in Labels(a);
    }
  }

  /** The labelled values of a column. */
  function StrValues(s: seq<Value>): set<Value> {
    set x | x in s && x.Str?
  }

  /** Without a cap only the two thresholds decide: a labelled cell is
      renamed exactly when its count or its share is too small. */
  lemma NoCapThresholdsDecide(col: seq<Value>, p: BucketParams, i: nat)
    requires CleanColumn(col) && p.maxGroups.None? && i < |col| && col[i].Str?
    ensures var c := Considered(col, p.dropna);
      (GroupUncommonValues(col, p)[i] == Str(OTHER)
       <==> (Count(c, col[i]) as real) < p.minCount || Ratio(Count(c, col[i]), |c|) < p.minRatio)
  {
    CollapseExactly(col, p, i);
    assert col[i] in Tally(col, p.dropna);
  }

  /** A cap of 0 allows no labelled value: every labelled cell becomes
      `_other` and only missing cells keep their value. */
  lemma ZeroCapCollapsesAll(col: seq<Value>, p: BucketParams, i: nat)
    requires CleanColumn(col) && p.maxGroups == Some(0) && i < |col|
    ensures GroupUncommonValues(col, p)[i] == if col[i].Missing? then Missing else Str(OTHER)
  {
    if col[i].Str? {
      CollapseExactly(col, p, i);
    }
  }

  /** A non-zero cap keeps exactly `min(n, number of distinct labelled values)`
      labelled values: `_na` never takes a place in the window. */
  lemma CapAllowsTopN(col: seq<Value>, p: BucketParams, n: nat)
    requires CleanColumn(col) && p.maxGroups == Some(n)
    ensures |StrValues(Allowed(col, p))| == if n <= |StrValues(col)| then n else |StrValues(col)|
  {
    var t := Tally(col, p.dropna);
    assert StrValues(t) == StrValues(col);
    assert CleanColumn(t) by {
      forall i | 0 <= i < |t| ensures CleanValue(t[i]) {
        assert t[i] in col;
      }
    }
    WindowStrValues(t, n);
  }

  /** The window over a duplicate-free sequence of clean values holds
      `min(n, number of labelled values)` labelled values. */
  lemma {:induction false} WindowStrValues(t: seq<Value>, n: nat)
    requires NoDup(t) && CleanColumn(t)
    ensures var w := Window(t, Some(n)).value;
      |StrValues(Head(t, w))| == if n <= |StrValues(t)| then n else |StrValues(t)|
  {
    StrValuesOfDistinct(t);
    var h := Head(t, n);
    assert NoDup(h);
    NaLabelIsMissing(h);
    if n != 0 && Missing in h {
      var h1 := Head(t, n + 1);
      assert NoDup(h1);
      StrValuesOfDistinct(h1);
      var i :| 0 <= i < |h| && h[i] == Missing;
      assert h1[i] == Missing;
    } else {
      StrValuesOfDistinct(h);
      // A value of `t` outside the window lies past position `n`.
      assert |t| <= n ==> h == t;
    }
  }

  /** In a clean sequence only a missing cell is labelled `_na`. */
  lemma NaLabelIsMissing(h: seq<Value>)
    requires CleanColumn(h)
    ensures NA in Labels(h) <==> Missing in h
  {
    if NA in Labels(h) {
      var v :| v in h && Label(v) == NA;
      var i :| 0 <= i < |h| && h[i] == v;
      assert CleanValue(h[i]);
    }
    if Missing in h {
      assert Label(Missing) == NA;
    }
  }

  /** In a duplicate-free sequence the labelled values are all positions but
      the one holding `Missing`, if any. */
  lemma StrValuesOfDistinct(s: seq<Value>)
    requires NoDup(s)
    ensures |StrValues(s)| == |s| - if Missing in s then 1 else 0
  {
    DistinctCard(s);
    if Missing in s {
      assert (set x | x in s) == StrValues(s) + {Missing};
    } else {
      assert (set x | x in s) == StrValues(s);
    }
  }

  /** The cap keeps the most frequent values: an allowed value is at least as
      frequent as any tallied value left out. */
  lemma AllowedAreMostFrequent(col: seq<Value>, p: BucketParams, x: Value, y: Value)
    requires x in Allowed(col, p) && y in Tally(col, p.dropna) && y !in Allowed(col, p)
    ensures Freq(col, p.dropna)(x) >= Freq(col, p.dropna)(y)
  {
    var t := Tally(col, p.dropna);
    var w :| Window(t, p.maxGroups) == Some(w);
    HeadDominates(t, Freq(col, p.dropna), w, x, y);
  }

  /** A labelled value that is not renamed keeps its count, and so do the
      missing cells. */
  lemma SurvivorKeepsCount(col: seq<Value>, p: BucketParams, x: Value)
    requires CleanColumn(col) && CleanValue(x)
    requires x.Missing? || x.s !in Collapsed(col, p)
    ensures Count(GroupUncommonValues(col, p), x) == Count(col, x)
  {
    var gone := Collapsed(col, p);
    var f := (z: Value) => if z.Str? && z.s in gone then Str(OTHER) else z;
    assert GroupUncommonValues(col, p) == MapSeq(col, f);
    forall z ensures f(z) == x <==> z == x {
      if z.Str? && z.s in gone {
        assert f(z) == Str(OTHER);
      }
    }
    CountMapFixed(col, f, x, x);
  }
}
