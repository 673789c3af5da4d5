/** Shared vocabulary: optional values and identifiers. */
module Prelude {
  datatype Option<+T> = None | Some(value: T)

  // A database identifier. Zero is the unset identifier (`shared.Nil`).
  type Id = nat

  const NIL_ID: Id := 0

  // Instants and durations, in nanoseconds.
  type Time = int
}
