/** The `AdvancedValueCounts` class (avc.py): it holds a frame and the
    settings of `get_avc_df`, checks each setting through its descriptor
    whenever it is assigned, and computes its two tables from the current
    settings at every read. */
module Avc {
  import opened Seqs
  import opened Frames
  import opened PyValues
  import HelperFunctions
  import opened SummaryStatistics
  import opened SubgroupCollapse
  import opened Regroup
  import opened AvcPipeline

  /** The settings that go through a descriptor. */
  datatype Field =
    | MaxGroups
    | MinGroupRatio
    | MinGroupCount
    | MaxSubgroups
    | MinSubgroupRatio
    | MinSubgroupCount
    | MinSubgroupRatioVsTotal
    | RoundRatio

  /** The descriptor each setting is declared with by the three class
      decorators. */
  function Guard(f: Field, v: PyValue): Check {
    match f
    case MinGroupCount | MinSubgroupCount => HelperFunctions.PositiveNumberSet(v)
    case MaxGroups | MaxSubgroups | RoundRatio => HelperFunctions.PositiveNumberOrNoneSet(v)
    case MinGroupRatio | MinSubgroupRatio | MinSubgroupRatioVsTotal => HelperFunctions.RatioSet(v)
  }

  /** The settings `__init__` receives. */
  datatype Arguments = Arguments(
    maxGroups: PyValue,
    minGroupRatio: PyValue,
    minGroupCount: PyValue,
    maxSubgroups: PyValue,
    minSubgroupRatio: PyValue,
    minSubgroupCount: PyValue,
    minSubgroupRatioVsTotal: PyValue,
    roundRatio: PyValue)

  function Argument(a: Arguments, f: Field): PyValue {
    match f
    case MaxGroups => a.maxGroups
    case MinGroupRatio => a.minGroupRatio
    case MinGroupCount => a.minGroupCount
    case MaxSubgroups => a.maxSubgroups
    case MinSubgroupRatio => a.minSubgroupRatio
    case MinSubgroupCount => a.minSubgroupCount
    case MinSubgroupRatioVsTotal => a.minSubgroupRatioVsTotal
    case RoundRatio => a.roundRatio
  }

  /** The defaults of `__init__`'s signature. */
  function Defaults(): Arguments {
    Arguments(PyNone, PyInt(0), PyInt(1), PyNone, PyInt(0), PyInt(1), PyInt(0), PyNone)
  }

  /** Every setting holds a value its descriptor accepts. */
  predicate Accepted(a: Arguments) {
    Guard(MaxGroups, a.maxGroups) == Pass
    && Guard(MinGroupRatio, a.minGroupRatio) == Pass
    && Guard(MinGroupCount, a.minGroupCount) == Pass
    && Guard(MaxSubgroups, a.maxSubgroups) == Pass
    && Guard(MinSubgroupRatio, a.minSubgroupRatio) == Pass
    && Guard(MinSubgroupCount, a.minSubgroupCount) == Pass
    && Guard(MinSubgroupRatioVsTotal, a.minSubgroupRatioVsTotal) == Pass
    && Guard(RoundRatio, a.roundRatio) == Pass
  }

  /** The settings with one of them replaced. */
  function With(a: Arguments, f: Field, v: PyValue): Arguments {
    match f
    case MaxGroups => a.(maxGroups := v)
    case MinGroupRatio => a.(minGroupRatio := v)
    case MinGroupCount => a.(minGroupCount := v)
    case MaxSubgroups => a.(maxSubgroups := v)
    case MinSubgroupRatio => a.(minSubgroupRatio := v)
    case MinSubgroupCount => a.(minSubgroupCount := v)
    case MinSubgroupRatioVsTotal => a.(minSubgroupRatioVsTotal := v)
    case RoundRatio => a.(roundRatio := v)
  }

  /** Replacing a setting by a value its descriptor accepts keeps the
      settings accepted, and changes that setting only. */
  lemma WithAccepted(a: Arguments, f: Field, v: PyValue)
    requires Accepted(a) && Guard(f, v) == Pass
    ensures Accepted(With(a, f, v))
    ensures Argument(With(a, f, v), f) == v
    ensures forall g: Field | g != f :: Argument(With(a, f, v), g) == Argument(a, g)
  {
  }

  /** The checks `__init__` runs, in the order it assigns the settings: the
      first one that raises is the exception `__init__` raises. */
  function InitCheck(a: Arguments): Check {
    Then(Guard(MaxGroups, a.maxGroups),
    Then(Guard(MinGroupRatio, a.minGroupRatio),
    Then(Guard(MinGroupCount, a.minGroupCount),
    Then(Guard(MaxSubgroups, a.maxSubgroups),
    Then(Guard(MinSubgroupRatio, a.minSubgroupRatio),
    Then(Guard(MinSubgroupCount, a.minSubgroupCount),
    Then(Guard(MinSubgroupRatioVsTotal, a.minSubgroupRatioVsTotal),
    Guard(RoundRatio, a.roundRatio))))))))
  }

  /** `__init__` succeeds exactly when every setting passes its descriptor,
      whatever the order. */
  lemma InitAcceptsExactly(a: Arguments)
    ensures InitCheck(a) == Pass <==> Accepted(a)
    ensures InitCheck(a) == Pass <==> forall f: Field :: Guard(f, Argument(a, f)) == Pass
  {
    if InitCheck(a) == Pass {
      forall f: Field ensures Guard(f, Argument(a, f)) == Pass {
        match f
        case MaxGroups =>
        case MinGroupRatio =>
        case MinGroupCount =>
        case MaxSubgroups =>
        case MinSubgroupRatio =>
        case MinSubgroupCount =>
        case MinSubgroupRatioVsTotal =>
        case RoundRatio =>
      }
    } else {
      assert exists f: Field :: Guard(f, Argument(a, f)) != Pass by {
        if Guard(MaxGroups, a.maxGroups) != Pass {
          assert Guard(MaxGroups, Argument(a, MaxGroups)) != Pass;
        } else if Guard(MinGroupRatio, a.minGroupRatio) != Pass {
          assert Guard(MinGroupRatio, Argument(a, MinGroupRatio)) != Pass;
        } else if Guard(MinGroupCount, a.minGroupCount) != Pass {
          assert Guard(MinGroupCount, Argument(a, MinGroupCount)) != Pass;
        } else if Guard(MaxSubgroups, a.maxSubgroups) != Pass {
          assert Guard(MaxSubgroups, Argument(a, MaxSubgroups)) != Pass;
        } else if Guard(MinSubgroupRatio, a.minSubgroupRatio) != Pass {
          assert Guard(MinSubgroupRatio, Argument(a, MinSubgroupRatio)) != Pass;
        } else if Guard(MinSubgroupCount, a.minSubgroupCount) != Pass {
          assert Guard(MinSubgroupCount, Argument(a, MinSubgroupCount)) != Pass;
        } else if Guard(MinSubgroupRatioVsTotal, a.minSubgroupRatioVsTotal) != Pass {
          assert Guard(MinSubgroupRatioVsTotal, Argument(a, MinSubgroupRatioVsTotal)) != Pass;
        } else {
          assert Guard(RoundRatio, Argument(a, RoundRatio)) != Pass;
        }
      }
    }
  }

  /** A cap or `round_ratio` as `get_avc_df` receives it. */
  function ToSetting(v: PyValue): (s: Setting)
    requires HelperFunctions.PositiveNumberOrNoneSet(v) == Pass
    ensures s.Unset? <==> v.PyNone?
    ensures s.IntSetting? <==> v.PyInt?
    ensures v.PyInt? ==> s.n == v.n
    ensures v.PyFloat? ==> s == FloatSetting(v.x.r)
  {
    match v
    case PyInt(n) => IntSetting(n)
    case PyFloat(Finite(x)) => FloatSetting(x)
    case _ => Unset
  }

  /** A threshold as `get_avc_df` compares with it. */
  function ToReal(v: PyValue): (r: real)
    requires HelperFunctions.PositiveNumberSet(v) == Pass || HelperFunctions.RatioSet(v) == Pass
    ensures r >= 0.0
    ensures HelperFunctions.RatioSet(v) == Pass ==> r <= 1.0
    ensures v.PyInt? ==> r == v.n as real
    ensures v.PyFloat? ==> r == v.x.r
  {
    match v
    case PyInt(n) => n as real
    case PyFloat(Finite(x)) => x
    case _ => 0.0
  }

  /** The settings as `get_avc_df` receives them. */
  function ToParams(dropna: bool, a: Arguments): AvcParams
    requires Accepted(a)
  {
    AvcParams(dropna, ToSetting(a.maxGroups), ToReal(a.minGroupRatio), ToReal(a.minGroupCount),
      ToSetting(a.maxSubgroups), ToReal(a.minSubgroupRatio), ToReal(a.minSubgroupCount),
      ToReal(a.minSubgroupRatioVsTotal), ToSetting(a.roundRatio))
  }

  /** The class's defaults are accepted and are `get_avc_df`'s defaults. */
  lemma DefaultsAgree(dropna: bool)
    ensures Accepted(Defaults())
    ensures ToParams(dropna, Defaults()) == AvcParams(dropna, Unset, 0.0, 1.0, Unset, 0.0, 1.0, 0.0, Unset)
  {
  }

  /** `drop(label, level=0)`: the rows of the other groups, or `KeyError`
      when no row has that group. */
  function DropGroup(rows: seq<AvcRow>, g: string): (r: Result<seq<AvcRow>>)
    ensures r.Err? <==> forall i | 0 <= i < |rows| :: rows[i].key.group != g
    ensures r.Err? ==> r.error == KeyError
    ensures r.Ok? ==> forall row :: Count(r.value, row) == if row.key.group != g then Count(rows, row) else 0
  {
    if forall i | 0 <= i < |rows| :: rows[i].key.group != g then Err(KeyError)
    else Ok(Filter(rows, (row: AvcRow) => row.key.group != g))
  }

  /** The labels of the subgroup level of the index of `avc_df`: the
      subgroups of its rows. A drop keeps the level as it was, so labels of
      rows a drop removed stay in it. */
  function SubLevel(rows: seq<AvcRow>): (level: set<string>)
    ensures forall v :: v in level <==> exists i | 0 <= i < |rows| :: rows[i].key.sub == v
  {
    set i | 0 <= i < |rows| :: rows[i].key.sub
  }

  /** `drop(label, level=1)` on a frame whose subgroup level holds `level`:
      the rows of the other subgroups, or `KeyError` when the label is not
      in the level (whether or not a remaining row carries it). */
  function DropSub(rows: seq<AvcRow>, level: set<string>, v: string): (r: Result<seq<AvcRow>>)
    ensures r.Err? <==> v !in level
    ensures r.Err? ==> r.error == KeyError
    ensures r.Ok? ==> forall row :: Count(r.value, row) == if row.key.sub != v then Count(rows, row) else 0
  {
    if v !in level then Err(KeyError)
    else Ok(Filter(rows, (row: AvcRow) => row.key.sub != v))
  }

  /** The grouped table without its summary rows: `_all` first, then
      `_total`, the second drop against the level of the table it started
      from. */
  function Unsummarized(rows: seq<AvcRow>): Result<seq<AvcRow>> {
    match DropGroup(rows, ALL)
    case Err(e) => Err(e)
    case Ok(rest) => DropSub(rest, SubLevel(rows), TOTAL)
  }

  /** What is left is every row of a real group and a real subgroup, each
      exactly as often as before; it fails only when `_all` is not a group
      or `_total` not a subgroup of the table. */
  lemma UnsummarizedRows(rows: seq<AvcRow>)
    ensures Unsummarized(rows).Ok? <==>
      (exists i | 0 <= i < |rows| :: rows[i].key.group == ALL)
      && (exists i | 0 <= i < |rows| :: rows[i].key.sub == TOTAL)
    ensures Unsummarized(rows).Ok? ==> forall row ::
      Count(Unsummarized(rows).value, row)
        == if row.key.group != ALL && row.key.sub != TOTAL then Count(rows, row) else 0
  {
  }

  /** The second drop does not fail once the first has removed the only
      `_total` row, `(_all, _total)`: the label is still in the level. */
  lemma SecondDropUsesLevel(r: AvcRow)
    requires r.key == Key(ALL, TOTAL)
    ensures Unsummarized([r]) == Ok([])
  {
    assert DropGroup([r], ALL) == Ok([]);
    assert TOTAL in SubLevel([r]);
  }

  /** A collapsed table keeps an `_all` row: the collapse fails without
      one and never changes a row's group. */
  lemma CollapsedAllRow(t: seq<Row>, sp: SubgroupParams) returns (j: nat)
    requires CollapseSubgroups(t, sp).Ok?
    ensures j < |CollapseSubgroups(t, sp).value| && CollapseSubgroups(t, sp).value[j].key.group == ALL
  {
    var alls := Filter(t, InAll());
    assert |alls| > 0;
    assert alls[0] in alls;
    j :| 0 <= j < |t| && t[j] == alls[0];
  }

  /** Every key of the collapsed table is the key of a row of the result. */
  lemma DiffRowOf(s: seq<StatRow>, j: nat) returns (n: nat)
    requires SubgroupDiff.SubgroupDiff(Merge(s)).Ok? && j < |s|
    ensures n < |SubgroupDiff.SubgroupDiff(Merge(s)).value|
    ensures SubgroupDiff.SubgroupDiff(Merge(s)).value[n].key == s[j].key
  {
    n := MergedOfSource(s, j);
  }

  /** A grouped result always has an `_all` row and a `_total` row of a
      real group, so `unsummerized_df` never fails on its own: both labels
      are found. */
  lemma SummaryRowsPresent(df: seq<Record>, p: AvcParams)
    requires CleanData(df) && GroupedAvc(df, p).Ok?
    ensures var rows := GroupedAvc(df, p).value;
      (exists i | 0 <= i < |rows| :: rows[i].key.group == ALL)
      && (exists i | 0 <= i < |rows| :: rows[i].key.group != ALL && rows[i].key.sub == TOTAL)
  {
    GroupedStages(df, p);
    CollapseStepPlain(df, p);
    GroupedFrameLabels(df, p);
    var f := GroupedFrame(df, p);
    var sp := CollapseParams(p);
    var s := CollapsedTable(df, p).value;
    var j := CollapsedAllRow(SummaryTable(f), sp);
    var n := DiffRowOf(s, j);
    DiffErrors(s);
    CollapsedHasReal(f, sp, s);
    var i := SomeGroupTotal(f);
    SentinelRowsKept(SummaryTable(f), sp, i);
    var m := DiffRowOf(s, i);
  }

  /** An object of the class; `grouped` stands for a truthy `groupby_col`
      (columns are not looked up by name). */
  class AdvancedValueCounts {
    var df: seq<Record>
    var grouped: bool
    var dropna: bool
    var maxGroups: PyValue
    var minGroupRatio: PyValue
    var minGroupCount: PyValue
    var maxSubgroups: PyValue
    var minSubgroupRatio: PyValue
    var minSubgroupCount: PyValue
    var minSubgroupRatioVsTotal: PyValue
    var roundRatio: PyValue

    function Settings(): Arguments
      reads this
    {
      Arguments(maxGroups, minGroupRatio, minGroupCount, maxSubgroups,
        minSubgroupRatio, minSubgroupCount, minSubgroupRatioVsTotal, roundRatio)
    }

    /** Every setting holds a value its descriptor accepted. */
    predicate Valid()
      reads this
    {
      Accepted(Settings())
    }

    /** An object with every setting at its default. */
    constructor(df: seq<Record>, grouped: bool, dropna: bool)
      ensures this.df == df && this.grouped == grouped && this.dropna == dropna
      ensures Settings() == Defaults() && Valid()
    {
      this.df := df;
      this.grouped := grouped;
      this.dropna := dropna;
      maxGroups := PyNone;
      minGroupRatio := PyInt(0);
      minGroupCount := PyInt(1);
      maxSubgroups := PyNone;
      minSubgroupRatio := PyInt(0);
      minSubgroupCount := PyInt(1);
      minSubgroupRatioVsTotal := PyInt(0);
      roundRatio := PyNone;
    }

    /** Assigning a setting: its descriptor checks the value; a rejected
        value raises and changes nothing. */
    method Set(f: Field, v: PyValue) returns (c: Check)
      requires Valid()
      modifies this
      ensures Valid()
      ensures c == Guard(f, v)
      ensures Settings() == if c.Pass? then With(old(Settings()), f, v) else old(Settings())
      ensures df == old(df) && grouped == old(grouped) && dropna == old(dropna)
    {
      c := Guard(f, v);
      if c.Pass? {
        match f
        case MaxGroups => maxGroups := v;
        case MinGroupRatio => minGroupRatio := v;
        case MinGroupCount => minGroupCount := v;
        case MaxSubgroups => maxSubgroups := v;
        case MinSubgroupRatio => minSubgroupRatio := v;
        case MinSubgroupCount => minSubgroupCount := v;
        case MinSubgroupRatioVsTotal => minSubgroupRatioVsTotal := v;
        case RoundRatio => roundRatio := v;
      }
    }

    /** `__init__`: the frame and the unchecked settings, then the checked
        ones in the order of the source; the first rejected one raises and
        no object is returned. */
    static method Init(df: seq<Record>, grouped: bool, dropna: bool, a: Arguments)
      returns (obj: AdvancedValueCounts?, c: Check)
      ensures c == InitCheck(a)
      ensures obj != null <==> c.Pass?
      ensures obj != null ==>
        (fresh(obj) && obj.Valid() && obj.Settings() == a
         && obj.df == df && obj.grouped == grouped && obj.dropna == dropna)
    {
      var o := new AdvancedValueCounts(df, grouped, dropna);
      c := o.Set(MaxGroups, a.maxGroups);
      if c.Raise? { return null, c; }
      c := o.Set(MinGroupRatio, a.minGroupRatio);
      if c.Raise? { return null, c; }
      c := o.Set(MinGroupCount, a.minGroupCount);
      if c.Raise? { return null, c; }
      c := o.Set(MaxSubgroups, a.maxSubgroups);
      if c.Raise? { return null, c; }
      c := o.Set(MinSubgroupRatio, a.minSubgroupRatio);
      if c.Raise? { return null, c; }
      c := o.Set(MinSubgroupCount, a.minSubgroupCount);
      if c.Raise? { return null, c; }
      c := o.Set(MinSubgroupRatioVsTotal, a.minSubgroupRatioVsTotal);
      if c.Raise? { return null, c; }
      c := o.Set(RoundRatio, a.roundRatio);
      if c.Raise? { return null, c; }
      obj := o;
    }

    function Params(): AvcParams
      reads this
      requires Valid()
    {
      ToParams(dropna, Settings())
    }

    /** The `avc_df` property: `get_avc_df` on the current settings, so
        each read reflects every assignment made before it. */
    function AvcDf(): (r: Result<AvcTable>)
      reads this
      requires Valid()
      ensures r.Ok? ==> (r.value.Grouped? <==> grouped)
    {
      AvcPipeline.AvcDf(df, grouped, Params())
    }

    /** The `unsummerized_df` property, with whether it warns: grouped, the
        table without its `_all` rows and then without its `_total` rows;
        ungrouped, the table unchanged and a warning. */
    function UnsummerizedDf(): (r: (Result<AvcTable>, bool))
      reads this
      requires Valid()
      ensures r.1 <==> !grouped
      ensures !grouped ==> r.0 == AvcDf()
    {
      if !grouped then (AvcDf(), true)
      else
        match AvcDf()
        case Err(e) => (Err(e), false)
        case Ok(Ungrouped(counts)) => (Ok(Ungrouped(counts)), false)
        case Ok(Grouped(rows)) =>
          match Unsummarized(rows)
          case Err(e) => (Err(e), false)
          case Ok(rest) => (Ok(Grouped(rest)), false)
    }
  }

  /** Grouped, `unsummerized_df` holds the rows of `avc_df` outside `_all`
      and `_total`, each as often as there. */
  lemma UnsummerizedKeepsRealRows(o: AdvancedValueCounts)
    requires o.Valid() && o.grouped && o.UnsummerizedDf().0.Ok?
    ensures o.AvcDf().Ok? && o.AvcDf().value.Grouped? && o.UnsummerizedDf().0.value.Grouped?
    ensures forall row ::
      Count(o.UnsummerizedDf().0.value.rows, row)
        == if row.key.group != ALL && row.key.sub != TOTAL then Count(o.AvcDf().value.rows, row) else 0
  {
    UnsummarizedRows(o.AvcDf().value.rows);
  }

  /** On clean data `unsummerized_df` fails only when `avc_df` does. */
  lemma UnsummerizedFailsOnlyWithAvcDf(o: AdvancedValueCounts)
    requires o.Valid() && CleanData(o.df)
    ensures o.UnsummerizedDf().0.Ok? <==> o.AvcDf().Ok?
  {
    if o.grouped && o.AvcDf().Ok? {
      SummaryRowsPresent(o.df, o.Params());
      UnsummarizedRows(o.AvcDf().value.rows);
    }
  }
}
