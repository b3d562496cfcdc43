/** Shared vocabulary: optional and fallible values, and the machine integers that cross the C ABI. */
module Prelude {

  datatype Option<+T> = None | Some(value: T)

  /** A failure-compatible result, so that `:-` reads like the `?` operator. */
  datatype Result<+T, +E> = Ok(value: T) | Err(error: E) {
    predicate IsFailure() {
      Err?
    }

    function PropagateFailure<U>(): Result<U, E>
      requires Err?
    {
      Err(error)
    }

    function Extract(): T
      requires Ok?
    {
      value
    }
  }

  const TWO_63: int := 0x8000_0000_0000_0000
  const TWO_64: int := 0x1_0000_0000_0000_0000

  type U64 = x: int | 0 <= x < TWO_64
  type I64 = x: int | -TWO_63 <= x < TWO_63

  /** A double, carried as its 64 bits: the binding moves doubles around and never computes with them. */
  type F64 = U64

  /** The integer reduced to 64-bit two's complement: an `as i64` cast, or signed addition that wraps. */
  function AsI64(x: int): I64 {
    var r := x % TWO_64;
    if r < TWO_63 then r else r - TWO_64
  }

  /** A C variable that an out-pointer points to. */
  class OutSlot<T> {
    var v: T

    constructor (v: T)
      ensures this.v == v
    {
      this.v := v;
    }
  }
}
