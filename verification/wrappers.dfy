/** What the other modules share and no C file declares. */
module Wrappers {
  datatype Option<+T> = None | Some(value: T)

  /** One more than the largest 64-bit unsigned number. */
  const TWO_TO_THE_64 := 0x1_0000_0000_0000_0000
}
