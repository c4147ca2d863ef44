/** Option, used wherever the Rust code has `Option<T>`, and `min`. */
module Wrappers {
  datatype Option<+T> = None | Some(value: T)

  function Min(a: nat, b: nat): nat { if a <= b then a else b }
}
