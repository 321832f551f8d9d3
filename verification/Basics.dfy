/** What the other modules share. */
module Bytes {
  type Byte = b: int | 0 <= b < 256
}

module Options {
  datatype Option<+T> = None | Some(value: T)
}
