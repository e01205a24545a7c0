/** Shared value types: optional values, checked results and byte strings. */
module Base {
  datatype Option<+T> = None | Some(value: T)

  datatype Result<+T, +E> = Ok(value: T) | Err(error: E)

  /** An unsigned byte. */
  type byte = b: int | 0 <= b < 256

  type Bytes = seq<byte>

  /** A content digest as its printed text; only equality and framing look at it. */
  type Digest = Bytes

  /** The one assumption made about SHA-256 anywhere in this project. */
  ghost predicate CollisionFree<T(!new)>(hash: T -> Digest) {
    forall a: T, b: T :: hash(a) == hash(b) ==> a == b
  }
}
