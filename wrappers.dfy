/** The optional value used wherever the C code returns NULL or "no match", and a minimum helper. */
module Wrappers {
  datatype Option<+T> = None | Some(value: T)

  function Min(a: int, b: int): int { if a <= b then a else b }
}
