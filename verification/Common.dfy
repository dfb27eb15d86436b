/** Small vocabulary shared by every component of the model. */
module Common {
  datatype Option<+T> = None | Some(value: T)

  datatype Result<+T, +E> = Ok(value: T) | Err(error: E)

  /** The largest value of the unsigned 64-bit integers used for times and counters. */
  const U64_MAX: nat := 0xFFFF_FFFF_FFFF_FFFF

  /** `u64::saturating_add`. */
  function SaturatingAdd(a: nat, b: nat): (r: nat)
    ensures r == a + b || (r == U64_MAX && a + b > U64_MAX)
  {
    if a + b <= U64_MAX then a + b else U64_MAX
  }

  /** `u64::saturating_sub`. */
  function SaturatingSub(a: nat, b: nat): (r: nat)
    ensures r == a - b || (r == 0 && a < b)
  {
    if a >= b then a - b else 0
  }
}
