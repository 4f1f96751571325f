/**
  The parameter values the framework hands to SetAxisExtraPar, with the parts
  of Python's semantics the drivers use on them: str(), truthiness, equality
  with an int constant and `k + v`.
 */
module PyValues {
  import opened Outcomes
  import Text

  /**
    A stored parameter value. The drivers' attributes are declared str, bool or
    int; those the constructors initialise to None start as NoneV.
   */
  datatype Value = NoneV | Str(s: string) | Bool(b: bool) | Int(i: int)

  /** Python's str(v). */
  function PyStr(v: Value): string
  {
    match v
    case NoneV => "None"
    case Str(s) => s
    case Bool(b) => if b then "True" else "False"
    case Int(i) => Text.IntToString(i)
  }

  /** Python's truth value of v, as used by `if v:` and `v and ...`. */
  predicate Truthy(v: Value)
  {
    match v
    case NoneV => false
    case Str(s) => s != ""
    case Bool(b) => b
    case Int(i) => i != 0
  }

  /** Python's `v == k` for an int constant k (True == 1 and False == 0). */
  predicate EqualsInt(v: Value, k: int)
  {
    match v
    case Int(i) => i == k
    case Bool(b) => (if b then 1 else 0) == k
    case _ => false
  }

  /** Python's `k + v` for an int constant k: a TypeError unless v is an int or a bool. */
  function AddInt(k: int, v: Value): Outcome<int>
  {
    match v
    case Int(i) => Returned(k + i)
    case Bool(b) => Returned(k + (if b then 1 else 0))
    case _ => Raised
  }
}
