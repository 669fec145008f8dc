/** Datatypes and numbers shared by every module. */
module Base {

  datatype Option<+T> = None | Some(value: T)

  // What 64 bits can count.
  const WORD: nat := 0x1_0000_0000_0000_0000
}
