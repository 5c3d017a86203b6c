/** The drift measure of the price circuit breaker: how far apart two prices are, in basis
    points of the smaller one, with every arithmetic failure read as "too far". */
module Drift {
  import opened Base

  const MAX_TWAP_DRIFT_BPS := 3000
  const BPS_SCALE := 10_000

  function DriftBps(a: Uint128, b: Uint128): Uint128 {
    var smaller, larger := Min(a, b), Max(a, b);
    var scaled := (larger - smaller) * BPS_SCALE;
    if scaled > U128_MAX || smaller == 0 then U128_MAX
    else FloorDiv(scaled, smaller)
  }

  /** The breaker passes exactly when both prices are positive, the scaled difference fits
      128 bits, and the difference is less than 30.01 % of the smaller price: the division
      rounds down, so up to a basis point more than the nominal 30 % is let through. */
  lemma DriftWithinLimit(a: Uint128, b: Uint128)
    ensures DriftBps(a, b) <= MAX_TWAP_DRIFT_BPS <==>
            && 0 < Min(a, b)
            && (Max(a, b) - Min(a, b)) * BPS_SCALE <= U128_MAX
            && (Max(a, b) - Min(a, b)) * BPS_SCALE < (MAX_TWAP_DRIFT_BPS + 1) * Min(a, b)
  {
    var d, n := Min(a, b), (Max(a, b) - Min(a, b)) * BPS_SCALE;
    if d > 0 {
      if n < (MAX_TWAP_DRIFT_BPS + 1) * d {
        DivAtMost(n, d, MAX_TWAP_DRIFT_BPS);
      } else {
        DivAtLeast(n, d, MAX_TWAP_DRIFT_BPS + 1);
      }
    }
  }

  /** What a passed check means for the pair of prices, whichever way the price moved. */
  lemma DriftBoundsRatio(a: Uint128, b: Uint128)
    requires DriftBps(a, b) <= MAX_TWAP_DRIFT_BPS
    ensures 0 < a && 0 < b
    ensures a * 10_000 < 13_001 * b && b * 10_000 < 13_001 * a
  {
    DriftWithinLimit(a, b);
  }

  /** The price published for a candidate and a confirming observation. */
  function Midpoint(a: Uint128, b: Uint128): (m: Uint128)
    ensures Min(a, b) <= m <= Max(a, b)
    ensures a + b - 1 <= 2 * m <= a + b
  {
    (a + b) / 2
  }
}
