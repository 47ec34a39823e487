/** Bytes, line breaks, and optional values shared by the wire formats. */
module ByteStrings {

  newtype Byte = x: int | 0 <= x < 256

  type Bytes = seq<Byte>

  const LF: Byte := 10
  const CR: Byte := 13

  datatype Option<+T> = None | Some(value: T)
}
