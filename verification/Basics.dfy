/** Small shared datatypes. */
module Basics {

  /** A value that may be absent: a Python `None`, a missing row, a falsy argument. */
  datatype Option<+T> = None | Some(value: T) {
    function GetOr(default: T): T {
      if Some? then value else default
    }
  }

  /** The result of a call that either returns or raises. */
  datatype Result<+T> = Ok(value: T) | Raised

  /** A parameter's value, and the named values that make up one variant of an experiment (`core/tuning/base.py`). */
  datatype Value = Number(n: real) | Text(s: string)

  type Parameters = map<string, Value>

  datatype Variant = Variant(id: string, values: Parameters)
}
