/** Bytes, for the parts of the engine that work on them. */
module ByteStrings {
  newtype Byte = b: int | 0 <= b < 256
  type Bytes = seq<Byte>
}
