/** Optional values and results with an error, used across the model. */
module Wrappers {

  /** A value that may be absent (Go's `nil`, or a lookup that found nothing). */
  datatype Option<+T> = None | Some(value: T)

  /** The `(value, error)` pair a Go function returns, with exactly one of the two meaningful. */
  datatype Result<+R, +E> = Success(value: R) | Failure(error: E)
}

/** Octets, the element type of Go's `[]byte`. */
module Bytes {

  newtype byte = x: int | 0 <= x < 256

  /** `n` zero bytes, as `make([]byte, n)` allocates them. */
  function Zeros(n: nat): (z: seq<byte>)
    ensures |z| == n
    ensures forall i :: 0 <= i < n ==> z[i] == 0
  {
    seq(n, _ => 0)
  }
}
