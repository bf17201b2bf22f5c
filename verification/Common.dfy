/** What several components share. */
module Common {

  /** A C char or unsigned char. */
  type byte = bv8

  datatype Option<T> = None | Some(value: T)

  /** An int compared with a size_t. */
  function AsSize(x: int): int {
    if x < 0 then x + 0x1_0000_0000_0000_0000 else x
  }
}
