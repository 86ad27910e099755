/** What several modules share: an optional value, and the widths of unsigned numbers. */
module Wrappers {

  datatype Option<T> = None | Some(value: T)

  const TWO_32: nat := 0x1_0000_0000

  const TWO_64: nat := 0x1_0000_0000_0000_0000
}
