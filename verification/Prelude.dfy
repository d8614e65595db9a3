/** Shared value types: the optional and fallible results used by every module, and Rust's integer ranges. */
module Prelude {
  datatype Option<+T> = None | Some(value: T) {
    function GetOr(default: T): T {
      match this
      case Some(v) => v
      case None => default
    }
  }

  datatype Result<+T, +E> = Ok(value: T) | Err(error: E)

  const U64_MAX: nat := 0xFFFF_FFFF_FFFF_FFFF
  const I64_MAX: nat := 0x7FFF_FFFF_FFFF_FFFF
  const I64_MIN: int := -0x8000_0000_0000_0000

  type u64 = n: nat | n <= U64_MAX

  /** Rust's `or`: the first value when present, otherwise the second. */
  function OrElse<T>(first: Option<T>, second: Option<T>): Option<T> {
    if first.Some? then first else second
  }

  /** Rust's `u64::saturating_add(1)`. */
  function SaturatingIncrement(n: u64): (r: u64)
    ensures n <= r
    ensures n < r <==> n < U64_MAX
  {
    if n == U64_MAX then n else n + 1
  }
}
