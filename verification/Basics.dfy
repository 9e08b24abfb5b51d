/** Small shared vocabulary: optional values, the result of an operation that can fail, bytes, instants,
    and the one fact about set sizes that several proofs need. */
module Basics {

  datatype Option<+T> = None | Some(value: T)

  datatype Result<+T> = Ok(value: T) | Err

  type byte = bv8

  /** Nanoseconds since the epoch. Durations are in nanoseconds too. */
  type Instant = int

  const SECOND: int := 1_000_000_000

  /** A field keeps its last non-empty value. */
  function KeepLast(known: string, given: string): string {
    if given != "" then given else known
  }

  lemma {:induction false} SubsetSize<T>(a: set<T>, b: set<T>)
    requires a <= b
    ensures |a| <= |b|
    ensures |a| == |b| ==> a == b
  {
    if a != {} {
      var x :| x in a;
      SubsetSize(a - {x}, b - {x});
    }
  }
}
