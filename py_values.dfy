/** The Python values an attribute validator can be handed, and how the
    comparisons the validators use behave on them. */
module PyValues {
  /** A float: a finite number or one of the two infinities (NaN is not
      modelled). */
  datatype Float = Finite(r: real) | PosInf | NegInf

  datatype PyValue =
    | PyNone
    | PyBool(b: bool)
    | PyInt(n: int)
    | PyFloat(x: Float)
    | PyStr(s: string)

  datatype Exception = TypeError | ValueError

  /** The outcome of a check that either returns or raises. */
  datatype Check = Pass | Raise(exc: Exception)

  /** Two checks run one after the other: the second runs only when the
      first returned. */
  function Then(first: Check, second: Check): (c: Check)
    ensures c.Pass? <==> first.Pass? && second.Pass?
    ensures first.Raise? ==> c == first
  {
    if first.Pass? then second else first
  }

  /** `isinstance(v, (int, float)) and not isinstance(v, bool)`: `bool` is a
      subclass of `int`, so it has to be excluded by name. */
  predicate IsNumber(v: PyValue) {
    v.PyInt? || v.PyFloat?
  }

  /** A value `<` and `>` accept against a number: numbers and bools (which
      compare as 0 and 1); `None` and strings raise `TypeError`. */
  predicate Comparable(v: PyValue) {
    IsNumber(v) || v.PyBool?
  }

  /** `v < c` for a comparable value and a finite constant `c`. */
  predicate Below(v: PyValue, c: int)
    requires Comparable(v)
  {
    match v
    case PyBool(b) => (if b then 1 else 0) < c
    case PyInt(n) => n < c
    case PyFloat(Finite(r)) => r < c as real
    case PyFloat(NegInf) => true
    case PyFloat(PosInf) => false
  }

  /** `v > c` for a comparable value and a finite constant `c`. */
  predicate Above(v: PyValue, c: int)
    requires Comparable(v)
  {
    match v
    case PyBool(b) => (if b then 1 else 0) > c
    case PyInt(n) => n > c
    case PyFloat(Finite(r)) => r > c as real
    case PyFloat(NegInf) => false
    case PyFloat(PosInf) => true
  }

  /** `v == np.inf`: only positive infinity; `None`, strings and bools are
      simply unequal to it. */
  predicate IsPosInf(v: PyValue) {
    v == PyFloat(PosInf)
  }

  /** The numbers at or above 0, positive infinity included. */
  predicate NonNegative(v: PyValue) {
    match v
    case PyInt(n) => n >= 0
    case PyFloat(Finite(r)) => r >= 0.0
    case PyFloat(PosInf) => true
    case _ => false
  }

  /** The numbers from 0 to 1, both ends included. */
  predicate InUnit(v: PyValue) {
    match v
    case PyInt(n) => 0 <= n <= 1
    case PyFloat(Finite(r)) => 0.0 <= r <= 1.0
    case _ => false
  }
}
