/** Optional values, standing for Rust's `Option` and Python's `None`. */
module Wrappers {

  datatype Option<+T> = None | Some(value: T) {

    /** The contained value, or `default` when there is none (Rust's `unwrap_or`). */
    function UnwrapOr(default: T): (r: T)
      ensures Some? ==> r == value
      ensures None? ==> r == default
    {
      match this
      case Some(v) => v
      case None => default
    }
  }
}

/** The fixed-width unsigned integers of the source, as bounded subsets of `int`. */
module Numerics {

  newtype u8 = x: int | 0 <= x < 0x100

  newtype u32 = x: int | 0 <= x < 0x1_0000_0000

  newtype u64 = x: int | 0 <= x < 0x1_0000_0000_0000_0000
}
