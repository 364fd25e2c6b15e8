/** Saturating arithmetic on naturals, as Rust's `saturating_sub` on `usize` and `Duration`. */
module Numeric {

  /** `a.saturating_sub(b)`: the difference, clamped at zero instead of underflowing.
      It is the least natural `r` with `r + b >= a`. */
  function SaturatingSub(a: nat, b: nat): (r: nat)
    ensures r <= a
    ensures r + b >= a
    ensures r > 0 ==> r + b == a
  {
    if a >= b then a - b else 0
  }

  /** The smaller of two naturals. */
  function Min(a: nat, b: nat): (r: nat)
    ensures r <= a && r <= b
    ensures r == a || r == b
  {
    if a <= b then a else b
  }
}
