/** Shared vocabulary. */
module Common {

  datatype Option<+T> = None | Some(value: T)

  const TWO_32: nat := 0x1_0000_0000
}
