/** Wrappers and byte sequences shared by every module. */
module Common {

  datatype Option<+T> = None | Some(value: T)

  datatype Result<+T, +E> = Ok(value: T) | Err(error: E)

  /** One octet. */
  type byte = x: int | 0 <= x < 256

  /** A Rust `Vec<u8>` or the UTF-8 bytes of a Rust `String`. */
  type Bytes = seq<byte>

  /** `order` lists every member of `keys` once: how a hash map is walked. */
  predicate Enumerates<T(==)>(order: seq<T>, keys: set<T>) {
    && (forall x <- order :: x in keys)
    && (forall x <- keys :: x in order)
    && (forall i, j | 0 <= i < j < |order| :: order[i] != order[j])
  }
}
