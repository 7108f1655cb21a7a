/** Small value wrappers shared by the modules of the client model. */
module Wrappers {

  /** A value that may be absent: C's NULL pointer for strings, a missing table entry. */
  datatype Option<+T> = None | Some(value: T)

  function Min(a: int, b: int): (m: int)
    ensures m <= a && m <= b && (m == a || m == b)
  {
    if a <= b then a else b
  }
}
