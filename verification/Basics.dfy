/** Shared vocabulary: identifiers, time, bytes, optional values, results and
    the error constructors of the two crates that report errors. */
module Basics {

  /** A UUID, compared as the 128-bit number it spells. */
  type Uuid = nat

  /** A wall-clock reading. */
  type Time = int

  type Byte = b: int | 0 <= b < 256
  type Bytes = seq<Byte>

  datatype Option<+T> = None | Some(value: T)

  datatype Result<+T, +E> = Ok(value: T) | Err(error: E)

  /** Errors of the persistence layer; messages are dropped. */
  datatype DbError =
    | UnknownState
    | StateMismatch
    | EmptyVersionChain(id: Uuid)
    | MissingContentHash(id: Uuid)
    | UnexpectedContentHash(id: Uuid)
    | MalformedHash
    | MalformedThing
    | NoAttribution(id: Uuid)
    | AlreadyExists(id: Uuid)
    | SaveSnapshotRequiresExplicitMethod
    | Surreal

}
