/** Shared odds and ends. */
module Common {
  datatype Option<T> = None | Some(value: T)

  function Min(a: nat, b: nat): nat {
    if a <= b then a else b
  }

  function Max(a: nat, b: nat): nat {
    if a >= b then a else b
  }

  /** Subtraction that stops at zero. */
  function Since(a: nat, b: nat): nat {
    if a >= b then a - b else 0
  }
}
