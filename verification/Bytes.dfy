/** Bytes and texts: a `std::string` of the program is a sequence of bytes. */
module Bytes {
  type byte = x: int | 0 <= x < 256

  /** Topics, client ids and message texts. */
  type Text = seq<byte>

  datatype Option<+T> = None | Some(value: T)

  function Min(a: int, b: int): int {
    if a <= b then a else b
  }
}
