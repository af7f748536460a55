/** Small value wrappers shared by every module: Python's `None`-or-value,
    the outcome of one call into the agent runtime, and Python truthiness of
    an optional string. */
module Basics {

  /** `None` or a value, as Python's `Optional[T]`. */
  datatype Option<+T> = None | Some(value: T)

  /** What one `Runner.run` call did: raised (`Fail`) or returned a result. */
  datatype Outcome<+T> = Fail | Ok(value: T) {
    function ToOption(): Option<T> {
      match this
      case Fail => None
      case Ok(v) => Some(v)
    }
  }

  /** Python truthiness of an optional string: `None` and `""` are false. */
  predicate Truthy(s: Option<string>) {
    s.Some? && s.value != ""
  }
}
