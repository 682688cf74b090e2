/** Small shared vocabulary: an optional value (Python's `None` or a value). */
module Common {

  datatype Option<+T> = None | Some(value: T)

  /** Python's built-in `min` on two integers. */
  function MinNat(a: nat, b: nat): (m: nat)
    ensures m <= a && m <= b && (m == a || m == b)
  {
    if a <= b then a else b
  }

  /** Python's built-in `min(1.0, x)` for the capped scores of the moderation services. */
  function CapAtOne(x: real): (r: real)
    ensures r <= 1.0 && r <= x && (r == 1.0 || r == x)
  {
    if x <= 1.0 then x else 1.0
  }
}
