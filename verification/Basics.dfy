/** Small value types shared by every component of the model. */
module Basics {

  datatype Option<+T> = None | Some(value: T)

  datatype Result<+T, +E> = Ok(value: T) | Err(error: E)

  /** An unsigned 8-bit byte. */
  type byte = n: nat | n < 256

  const U64_LIMIT: nat := 0x1_0000_0000_0000_0000

  /** A 64-bit unsigned integer, as it appears on the wire. */
  type u64 = n: nat | n < U64_LIMIT

  /** A monotonic clock reading: nanoseconds since the earliest instant the
      platform can represent, so that subtracting past it is what fails. */
  type Instant = nat

  const NANOS_PER_MILLI: nat := 1_000_000
  const NANOS_PER_SEC: nat := 1_000_000_000

  function Min(a: nat, b: nat): nat {
    if a <= b then a else b
  }

  function Elements<T(==)>(s: seq<T>): set<T> {
    set x | x in s
  }

  /** Whether no two positions of `s` hold the same value. */
  ghost predicate Distinct<T>(s: seq<T>) {
    forall i, j :: 0 <= i < j < |s| ==> s[i] != s[j]
  }
}
