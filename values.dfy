/** Setting values as the product package stores them in its settings arrays,
    and PHP's loose emptiness test that the package uses to decide precedence. */
module Values {

  /** A dynamically typed PHP value, as it can appear in a settings array. */
  datatype Value =
    | Null
    | Bool(b: bool)
    | Int(i: int)
    | Float(f: real)
    | Str(s: string)
    | Arr(items: seq<Value>)

  /** PHP `empty()`: null, false, 0, 0.0, "", "0" and the empty array are empty;
      every other value (including "0.0", " " and a non-empty array) is not. */
  predicate IsEmpty(v: Value) {
    match v
    case Null => true
    case Bool(b) => !b
    case Int(i) => i == 0
    case Float(f) => f == 0.0
    case Str(s) => s == "" || s == "0"
    case Arr(items) => items == []
  }

  /** The loose cases of `empty()` the package relies on: the string "0" is
      empty, but "0.0", " " and an array holding only null are not, and
      neither are 0.5 and -1. */
  lemma EmptinessIsLoose()
    ensures IsEmpty(Str("0")) && IsEmpty(Float(0.0)) && IsEmpty(Bool(false))
    ensures !IsEmpty(Str("0.0")) && !IsEmpty(Str(" ")) && !IsEmpty(Arr([Null]))
    ensures !IsEmpty(Float(0.5)) && !IsEmpty(Int(-1)) && !IsEmpty(Bool(true))
  {
  }

  /** Reading a key of a keyed bag: the stored value, or null when the key is absent. */
  function Lookup(m: map<string, Value>, key: string): Value {
    if key in m then m[key] else Null
  }
}
