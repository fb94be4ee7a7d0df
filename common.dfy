/** Shared value types: optional values, results of fallible steps and JavaScript numbers. */
module Common {

  datatype Option<T> = None | Some(value: T)

  /** Outcome of an awaited backend call: a payload, or the error message it rejected with. */
  datatype Result<T> = Ok(value: T) | Err(message: string)

  /**
   * A JavaScript number as the editor sees it. Every place that reads a
   * number tests it with `Number.isFinite` (or clamps it, which treats a
   * non-finite value the same way), so NaN, +Infinity and -Infinity are one
   * case here; a value that is not a number at all (undefined, a string)
   * also fails `Number.isFinite` and is `NonFinite` too.
   */
  datatype Num = Finite(value: real) | NonFinite

  /** `Number.isFinite(x) ? x : 0`. */
  function FiniteOr0(x: Num): real
  {
    if x.Finite? then x.value else 0.0
  }

  /** `Number.isFinite(x) ? x : 0`, kept as a number. */
  function NormalizeNum(x: Num): Num
  {
    Finite(FiniteOr0(x))
  }

  function Min(a: real, b: real): real { if a <= b then a else b }
  function Max(a: real, b: real): real { if a >= b then a else b }
  function IMin(a: int, b: int): int { if a <= b then a else b }
  function IMax(a: int, b: int): int { if a >= b then a else b }

  /** Concatenation regroups freely. */
  lemma ConcatAssoc<T>(a: seq<T>, b: seq<T>, c: seq<T>)
    ensures a + (b + c) == (a + b) + c
  {
  }
}
