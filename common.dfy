/** Byte strings and the optional values shared by the other modules. */
module Common {

  /** One byte of a binary-safe Redis string. */
  newtype byte = x: int | 0 <= x < 256

  /** A Redis string: keys and values are arbitrary byte sequences and may contain zero bytes. */
  type Bytes = seq<byte>

  datatype Option<+T> = None | Some(value: T)

  /** True when no byte of `s` is the C string terminator. */
  predicate NulFree(s: Bytes)
  {
    forall i :: 0 <= i < |s| ==> s[i] != 0
  }
}
