/** The Python values that the validators and the log masking inspect. */
module PyValue {
  /** A Python value, as far as `isinstance`, truth testing and `< 0` tell values apart. */
  datatype Value =
    | NoneValue
    | BoolValue(b: bool)
    | IntValue(i: int)
    | FloatValue(f: real)
    | StrValue(s: string)
    | OtherValue(truthy: bool)  // any other object: a list, a dict, ...; with its truth value

  /** A dict with string keys. */
  type Dict = map<string, Value>

  /** Python truth testing: `bool(v)`. */
  predicate Truthy(v: Value) {
    match v
    case NoneValue => false
    case BoolValue(b) => b
    case IntValue(i) => i != 0
    case FloatValue(f) => f != 0.0
    case StrValue(s) => |s| > 0
    case OtherValue(t) => t
  }

  /** `isinstance(v, (int, float))`; `bool` is a subclass of `int`. */
  predicate IsNumber(v: Value) {
    v.BoolValue? || v.IntValue? || v.FloatValue?
  }

  /** `v < 0` for a number; `False` and `True` compare as 0 and 1. */
  predicate IsNegative(v: Value)
    requires IsNumber(v)
  {
    match v
    case IntValue(i) => i < 0
    case FloatValue(f) => f < 0.0
    case BoolValue(_) => false
  }
}
