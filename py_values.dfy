/** Just enough of Python's value semantics to read a guard as the interpreter
    does: equality between values of different types, and truthiness. */
module PyValues {

  /** A value as Python sees it. `Method` is a bound method object, which is what
      an attribute that names a method evaluates to when it is not called. */
  datatype PyValue = Int(i: int) | Str(s: string) | NoneValue | Method(name: string)

  /** `a == b`. An `int` and a `str` never compare equal, whatever their text. */
  function Eq(a: PyValue, b: PyValue): (r: bool)
    ensures a.Int? && b.Str? ==> !r
    ensures a.Int? && b.Int? ==> (r <==> a.i == b.i)
    ensures a.Str? && b.Str? ==> (r <==> a.s == b.s)
  {
    match (a, b)
    case (Int(x), Int(y)) => x == y
    case (Str(x), Str(y)) => x == y
    case (NoneValue, NoneValue) => true
    case (Method(x), Method(y)) => x == y
    case _ => false
  }

  /** `bool(v)`. A bound method object is always truthy. */
  function Truthy(v: PyValue): (r: bool)
    ensures v.Method? ==> r
    ensures v.NoneValue? ==> !r
  {
    match v
    case Int(i) => i != 0
    case Str(s) => s != ""
    case NoneValue => false
    case Method(_) => true
  }
}
