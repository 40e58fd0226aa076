/** The clock and the rounding every component shares. */
module Basics {

  /** Milliseconds. */
  type Instant = int

  /** The quotient rounded up, as `Math.ceil(a / b)`. */
  function CeilDiv(a: nat, b: nat): nat
    requires b > 0
  {
    if a % b == 0 then a / b else a / b + 1
  }
}
