/** The attribute checks `AdvancedValueCounts` is declared with
    (helper_functions.py): three descriptors whose `__set__` runs a few
    checks and stores the value only when none of them raised. */
module HelperFunctions {
  import opened PyValues

  /** `not_inf`: raises `ValueError` on positive infinity only. */
  function NotInf(v: PyValue): Check {
    if IsPosInf(v) then Raise(ValueError) else Pass
  }

  /** `not_below_zero`: a bare `value < 0`, so bools pass (they compare as 0
      and 1) and `None` or a string raise `TypeError` from the comparison. */
  function NotBelowZero(v: PyValue): (c: Check)
    ensures c == Pass <==> (IsNumber(v) && NonNegative(v)) || v.PyBool?
    ensures c == Raise(TypeError) <==> v.PyNone? || v.PyStr?
  {
    if !Comparable(v) then Raise(TypeError)
    else if Below(v, 0) then Raise(ValueError)
    else Pass
  }

  /** `only_numbers`: ints and floats, bools excluded. */
  function OnlyNumbers(v: PyValue): Check {
    if IsNumber(v) then Pass else Raise(TypeError)
  }

  /** `numbers_or_none`: ints, floats and `None`, bools excluded. */
  function NumbersOrNone(v: PyValue): Check {
    if IsNumber(v) || v.PyNone? then Pass else Raise(TypeError)
  }

  /** `check_if_ratio`: `value < 0 or value > 1`, again a bare comparison,
      so both bools pass. */
  function CheckIfRatio(v: PyValue): (c: Check)
    ensures c == Pass <==> InUnit(v) || v.PyBool?
    ensures c == Raise(TypeError) <==> v.PyNone? || v.PyStr?
  {
    if !Comparable(v) then Raise(TypeError)
    else if Below(v, 0) || Above(v, 1) then Raise(ValueError)
    else Pass
  }

  /** `PositiveNumber.__set__`: a number, at least 0 and finite; anything
      that is not a number (a bool included) is a `TypeError`, a number out
      of range a `ValueError`. */
  function PositiveNumberSet(v: PyValue): (c: Check)
    ensures c == Pass <==> IsNumber(v) && NonNegative(v) && !IsPosInf(v)
    ensures c == Raise(TypeError) <==> !IsNumber(v)
    ensures c.Raise? ==> c.exc in {TypeError, ValueError}
  {
    Then(OnlyNumbers(v), Then(NotBelowZero(v), NotInf(v)))
  }

  /** `PositiveNumberOrNone.__set__`: `None`, or a number at least 0 and
      finite. */
  function PositiveNumberOrNoneSet(v: PyValue): (c: Check)
    ensures c == Pass <==> v.PyNone? || (IsNumber(v) && NonNegative(v) && !IsPosInf(v))
    ensures c == Raise(TypeError) <==> !IsNumber(v) && !v.PyNone?
  {
    Then(NumbersOrNone(v), Then(NotInf(v), if v.PyNone? then Pass else NotBelowZero(v)))
  }

  /** `Ratio.__set__`: a number from 0 to 1, both ends included. */
  function RatioSet(v: PyValue): (c: Check)
    ensures c == Pass <==> InUnit(v)
    ensures c == Raise(TypeError) <==> !IsNumber(v)
  {
    Then(OnlyNumbers(v), CheckIfRatio(v))
  }

  /** What the three descriptors let through is finite and at least 0:
      positive infinity is stopped by `not_inf` or by the upper bound 1,
      negative infinity by the lower bound 0. */
  lemma AcceptedIsFinite(v: PyValue)
    requires PositiveNumberSet(v) == Pass || PositiveNumberOrNoneSet(v) == Pass || RatioSet(v) == Pass
    ensures v.PyNone? || (v.PyInt? && v.n >= 0) || (v.PyFloat? && v.x.Finite? && v.x.r >= 0.0)
  {
  }

  /** The three plain checks: `only_numbers` and `numbers_or_none` raise
      `TypeError` on a bool as on any other non-number, and `not_inf` lets
      negative infinity through. */
  lemma PlainChecks(v: PyValue)
    ensures OnlyNumbers(v) == Pass <==> v.PyInt? || v.PyFloat?
    ensures OnlyNumbers(v) != Pass ==> OnlyNumbers(v) == Raise(TypeError)
    ensures NumbersOrNone(v) == Pass <==> v.PyInt? || v.PyFloat? || v.PyNone?
    ensures NumbersOrNone(v) != Pass ==> NumbersOrNone(v) == Raise(TypeError)
    ensures NotInf(v) != Pass <==> v == PyFloat(PosInf)
    ensures NotInf(v) != Pass ==> NotInf(v) == Raise(ValueError)
  {
  }

  /** The type is checked before the sign: a string or a bool is a
      `TypeError` for every descriptor, whatever it would compare as. */
  lemma TypeCheckedFirst(s: string, b: bool)
    ensures PositiveNumberSet(PyStr(s)) == Raise(TypeError)
    ensures PositiveNumberOrNoneSet(PyStr(s)) == Raise(TypeError)
    ensures RatioSet(PyStr(s)) == Raise(TypeError)
    ensures PositiveNumberSet(PyBool(b)) == Raise(TypeError)
    ensures PositiveNumberOrNoneSet(PyBool(b)) == Raise(TypeError)
    ensures RatioSet(PyBool(b)) == Raise(TypeError)
  {
  }
}
