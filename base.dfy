/** Small shared vocabulary: an optional value and raw byte strings. */
module Base {

  /** Python's `None`-or-value. */
  datatype Option<+T> = None | Some(value: T)

  /** An opaque byte string (an HTTP body, a PNG file, decoded base64). */
  type Bytes = seq<bv8>
}
