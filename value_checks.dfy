/** The second copy of the attribute checks (value_checks.py): the same
    descriptors, but `not_below_zero` and `check_if_ratio` start with
    `only_numbers`, and a class decorator that warns when an attribute that
    does not exist yet is assigned after `__init__`. */
module ValueChecks {
  import opened Seqs
  import opened PyValues
  import HelperFunctions

  function NotInf(v: PyValue): Check {
    if IsPosInf(v) then Raise(ValueError) else Pass
  }

  function OnlyNumbers(v: PyValue): Check {
    if IsNumber(v) then Pass else Raise(TypeError)
  }

  /** `numbers_or_none`: only a value that is not `None` is type-checked. */
  function NumbersOrNone(v: PyValue): Check {
    if v.PyNone? then Pass
    else if !IsNumber(v) then Raise(TypeError)
    else Pass
  }

  /** `not_below_zero`: a number that is at least 0; bools are rejected
      here by `only_numbers`. */
  function NotBelowZero(v: PyValue): (c: Check)
    ensures c == Pass <==> IsNumber(v) && NonNegative(v)
    ensures c == Raise(TypeError) <==> !IsNumber(v)
  {
    if OnlyNumbers(v).Raise? then OnlyNumbers(v)
    else if Below(v, 0) then Raise(ValueError)
    else Pass
  }

  /** `check_if_ratio`: a number from 0 to 1. */
  function CheckIfRatio(v: PyValue): (c: Check)
    ensures c == Pass <==> InUnit(v)
    ensures c == Raise(TypeError) <==> !IsNumber(v)
  {
    if OnlyNumbers(v).Raise? then OnlyNumbers(v)
    else if Below(v, 0) || Above(v, 1) then Raise(ValueError)
    else Pass
  }

  /** The checks written the same way in both files agree on every value;
      the two that type-check first differ from their lenient twins
      exactly on bools. */
  lemma ChecksAgree(v: PyValue)
    ensures NotInf(v) == HelperFunctions.NotInf(v)
    ensures OnlyNumbers(v) == HelperFunctions.OnlyNumbers(v)
    ensures NumbersOrNone(v) == HelperFunctions.NumbersOrNone(v)
    ensures NotBelowZero(v) == HelperFunctions.NotBelowZero(v) <==> !v.PyBool?
    ensures CheckIfRatio(v) == HelperFunctions.CheckIfRatio(v) <==> !v.PyBool?
  {
    if v.PyBool? {
      assert NotBelowZero(v) == Raise(TypeError);
      assert CheckIfRatio(v) == Raise(TypeError);
    }
  }

  /** `PositiveNumber.__set__`; it accepts and rejects exactly as the copy
      in helper_functions.py, which type-checks before comparing. */
  function PositiveNumberSet(v: PyValue): (c: Check)
    ensures c == HelperFunctions.PositiveNumberSet(v)
  {
    Then(NotBelowZero(v), NotInf(v))
  }

  /** `PositiveNumberOrNone.__set__`, the same as in helper_functions.py. */
  function PositiveNumberOrNoneSet(v: PyValue): (c: Check)
    ensures c == HelperFunctions.PositiveNumberOrNoneSet(v)
  {
    Then(NumbersOrNone(v), Then(NotInf(v), if v.PyNone? then Pass else NotBelowZero(v)))
  }

  /** `Ratio.__set__`, the same as in helper_functions.py. */
  function RatioSet(v: PyValue): (c: Check)
    ensures c == HelperFunctions.RatioSet(v)
  {
    CheckIfRatio(v)
  }

  /** The three descriptor classes. */
  datatype Descriptor = PositiveNumber | PositiveNumberOrNone | Ratio

  function Validate(d: Descriptor, v: PyValue): Check {
    match d
    case PositiveNumber => PositiveNumberSet(v)
    case PositiveNumberOrNone => PositiveNumberOrNoneSet(v)
    case Ratio => RatioSet(v)
  }

  /** One attribute guarded by a descriptor: `__set__` stores the value under
      the private name only after every check returned, and reading an
      attribute never set finds nothing (`AttributeError`). */
  class GuardedAttribute {
    const descriptor: Descriptor
    var stored: Option<PyValue>

    predicate Valid()
      reads this
    {
      stored.Some? ==> Validate(descriptor, stored.value) == Pass
    }

    constructor(descriptor: Descriptor)
      ensures this.descriptor == descriptor && stored == None && Valid()
    {
      this.descriptor := descriptor;
      stored := None;
    }

    /** A rejected value raises and leaves the stored one in place. */
    method Set(v: PyValue) returns (c: Check)
      requires Valid()
      modifies this
      ensures Valid()
      ensures c == Validate(descriptor, v)
      ensures stored == if c.Pass? then Some(v) else old(stored)
    {
      c := Validate(descriptor, v);
      if c.Pass? {
        stored := Some(v);
      }
    }
  }

  /** The instance attributes after a run of assignments, in order. */
  function Assigned(attrs: map<string, PyValue>, assignments: seq<(string, PyValue)>): map<string, PyValue> {
    if assignments == [] then attrs
    else
      var last := assignments[|assignments| - 1];
      Assigned(attrs, assignments[..|assignments| - 1])[last.0 := last.1]
  }

  /** After a run of assignments an attribute exists exactly when it existed
      before or was one of those assigned, and holds the last value assigned
      to it. */
  lemma AssignedAttributes(attrs: map<string, PyValue>, assignments: seq<(string, PyValue)>, key: string)
    ensures key in Assigned(attrs, assignments) <==> key in attrs || exists i | 0 <= i < |assignments| :: assignments[i].0 == key
    ensures forall i | 0 <= i < |assignments| && assignments[i].0 == key
        && (forall j | i < j < |assignments| :: assignments[j].0 != key)
        :: Assigned(attrs, assignments)[key] == assignments[i].1
  {
    AssignedKeys(attrs, assignments, key);
    forall i | 0 <= i < |assignments| && assignments[i].0 == key
        && (forall j | i < j < |assignments| :: assignments[j].0 != key)
      ensures Assigned(attrs, assignments)[key] == assignments[i].1
    {
      AssignedLast(attrs, assignments, i);
    }
  }

  lemma {:induction false} AssignedKeys(attrs: map<string, PyValue>, assignments: seq<(string, PyValue)>, key: string)
    ensures key in Assigned(attrs, assignments) <==> key in attrs || exists i | 0 <= i < |assignments| :: assignments[i].0 == key
  {
    if assignments != [] {
      var init := assignments[..|assignments| - 1];
      AssignedKeys(attrs, init, key);
      if key !in attrs && exists i | 0 <= i < |init| :: init[i].0 == key {
        var i :| 0 <= i < |init| && init[i].0 == key;
        assert assignments[i].0 == key;
      }
    }
  }

  /** The value of an assignment that is not overwritten later survives. */
  lemma {:induction false} AssignedLast(attrs: map<string, PyValue>, assignments: seq<(string, PyValue)>, i: nat)
    requires i < |assignments|
    requires forall j | i < j < |assignments| :: assignments[j].0 != assignments[i].0
    ensures assignments[i].0 in Assigned(attrs, assignments)
    ensures Assigned(attrs, assignments)[assignments[i].0] == assignments[i].1
  {
    var n := |assignments| - 1;
    if i < n {
      var init := assignments[..n];
      assert init[i] == assignments[i];
      forall j | i < j < |init| ensures init[j].0 != init[i].0 {
        assert init[j] == assignments[j];
      }
      AssignedLast(attrs, init, i);
      assert assignments[n].0 != assignments[i].0;
    }
  }

  /** One more assignment of the run. */
  lemma AssignedStep(attrs: map<string, PyValue>, assignments: seq<(string, PyValue)>, k: nat)
    requires k < |assignments|
    ensures Assigned(attrs, assignments[..k + 1]) == Assigned(attrs, assignments[..k])[assignments[k].0 := assignments[k].1]
  {
    assert assignments[..k + 1][..k] == assignments[..k];
  }

  /** An object of a class decorated with `new_attribute_warning`: once its
      `__init__` has finished, assigning an attribute it does not have yet
      still stores the value but warns. */
  class WarnOnNewAttributes {
    var attrs: map<string, PyValue>
    var frozen: bool

    constructor()
      ensures attrs == map[] && !frozen
    {
      attrs := map[];
      frozen := false;
    }

    /** `frozensetattr`: the value is always stored; the result says whether
        a warning was issued. */
    method SetAttr(key: string, value: PyValue) returns (warned: bool)
      modifies this
      ensures warned <==> old(frozen) && key !in old(attrs)
      ensures attrs == old(attrs)[key := value] && frozen == old(frozen)
    {
      warned := frozen && key !in attrs;
      attrs := attrs[key := value];
    }

    /** The wrapped `__init__`: its assignments, then the object is frozen.
        On a fresh object none of them warns. */
    method Init(assignments: seq<(string, PyValue)>) returns (warnings: seq<bool>)
      modifies this
      ensures frozen && attrs == Assigned(old(attrs), assignments)
      ensures |warnings| == |assignments|
      ensures forall i | 0 <= i < |assignments| ::
        warnings[i] <==> old(frozen) && assignments[i].0 !in Assigned(old(attrs), assignments[..i])
      ensures !old(frozen) ==> forall i | 0 <= i < |warnings| :: !warnings[i]
    {
      warnings := [];
      var k := 0;
      while k < |assignments|
        invariant 0 <= k <= |assignments|
        invariant frozen == old(frozen)
        invariant attrs == Assigned(old(attrs), assignments[..k])
        invariant |warnings| == k
        invariant forall i | 0 <= i < k ::
          warnings[i] <==> old(frozen) && assignments[i].0 !in Assigned(old(attrs), assignments[..i])
      {
        var w := SetAttr(assignments[k].0, assignments[k].1);
        AssignedStep(old(attrs), assignments, k);
        warnings := warnings + [w];
        k := k + 1;
      }
      assert assignments[..k] == assignments;
      frozen := true;
    }
  }
}
