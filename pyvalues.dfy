/**
 * The Python values a `Variable` can be given: `None`, booleans, integers,
 * strings and lists, with Python's truthiness, `isinstance(v, int)` (which
 * holds for booleans too), `str(v)` and `int(v)`.
 */
module PyValues {
  import opened Wrappers
  import opened Decimal

  /** A Python value; a list only matters here by its length. */
  datatype PyValue = PyNone | PyBool(b: bool) | PyInt(i: int) | PyStr(s: string) | PyList(length: nat)

  /** `bool(v)`. */
  predicate Truthy(v: PyValue)
  {
    match v
    case PyNone => false
    case PyBool(b) => b
    case PyInt(i) => i != 0
    case PyStr(s) => s != []
    case PyList(n) => n > 0
  }

  /** `isinstance(v, int)`: `bool` is a subclass of `int`. */
  predicate IsInstanceInt(v: PyValue)
  {
    v.PyInt? || v.PyBool?
  }

  /** `str(v)` for an integer or a boolean. */
  function IntText(v: PyValue): (r: string)
    requires IsInstanceInt(v)
    ensures v.PyBool? ==> r == (if v.b then "True" else "False")
    ensures v.PyInt? ==> r == IntToString(v.i)
  {
    if v.PyBool? then (if v.b then "True" else "False")
    else IntToString(v.i)
  }

  /** The exceptions `int(v)` raises. */
  datatype ConversionError = ValueError | TypeError

  /** `int(v)`: parses a string, widens a boolean, refuses `None` and lists. */
  function IntOf(v: PyValue): (r: Result<int, ConversionError>)
    ensures v.PyStr? ==> (r.Success? <==> ParseInt(v.s).Some?)
    ensures v.PyStr? && r.Failure? ==> r.error == ValueError
    ensures v.PyNone? || v.PyList? ==> r == Failure(TypeError)
  {
    match v
    case PyStr(s) => (match ParseInt(s) case Some(i) => Success(i) case None => Failure(ValueError))
    case PyInt(i) => Success(i)
    case PyBool(b) => Success(if b then 1 else 0)
    case _ => Failure(TypeError)
  }

  /** Neither `"True"` nor `"False"` is an integer literal. */
  lemma BoolTextNotInt(b: bool)
    ensures IntOf(PyStr(IntText(PyBool(b)))) == Failure(ValueError)
  {
    ParseIntRejectsWords(if b then "True" else "False");
  }
}
