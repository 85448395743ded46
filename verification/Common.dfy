/** Small vocabulary shared by every module. */
module Common {
  datatype Option<+T> = None | Some(value: T)

  datatype Result<+T, +E> = Success(value: T) | Failure(error: E)

  /** Identifiers are UUIDs in the service; only their equality and order matter here. */
  type Id = nat

  /** An instant in nanoseconds. */
  type Instant = int

  const NANOS_PER_SECOND := 1_000_000_000

  function Flatten<T>(parts: seq<seq<T>>): seq<T> {
    if parts == [] then [] else parts[0] + Flatten(parts[1..])
  }

  lemma {:induction false} FlattenHolds<T>(parts: seq<seq<T>>, i: nat)
    requires i < |parts|
    ensures forall x :: x in parts[i] ==> x in Flatten(parts)
  {
    if i > 0 { FlattenHolds(parts[1..], i - 1); }
  }

  lemma HasHead<T>(s: seq<T>)
    ensures s != [] ==> s[0] in s
  {
  }
}
