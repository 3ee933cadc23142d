/** The value-or-nothing type that stands for the source's `T | null` results. */
module Wrappers {

  datatype Option<+T> = None | Some(value: T) {

    /** Returns the value of a Some, or the given default for None. */
    function GetOr(default: T): T {
      match this
      case Some(v) => v
      case None => default
    }
  }

  function Min(a: int, b: int): int { if a <= b then a else b }

  function Max(a: int, b: int): int { if a >= b then a else b }
}
