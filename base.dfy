/** Small shared vocabulary of the retrieval core: optional values, results,
    and the machine types the Swift code stores (bytes, 32- and 64-bit float
    bit patterns, identifiers, timestamps). */
module Base {

  datatype Option<+T> = None | Some(value: T)

  datatype Result<+T, +E> = Success(value: T) | Failure(error: E)

  /** One byte of a `Data` value. */
  type Byte = bv8

  /** A Swift `Float`, kept as its IEEE-754 bit pattern; its arithmetic is
      left abstract (see Embeddings.FloatArithmetic). */
  type Float32 = bv32

  /** A Swift `Double`, kept as its bit pattern. */
  type Float64 = bv64

  /** A `UUID`. Freshness is modelled by a counter in the store. */
  type Uuid = nat

  /** A `Date`, as an opaque instant. */
  type Timestamp = int

  function Min(a: int, b: int): int { if a <= b then a else b }

  function Max(a: int, b: int): int { if a >= b then a else b }
}
