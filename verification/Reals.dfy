/** Products of real numbers, for proofs that leave them to no solver's heuristics. */
module Reals {

  lemma TimesAssociative(x: real, y: real, z: real)
    ensures (x * y) * z == x * (y * z)
  {}

  lemma Distribute(x: real, y: real, z: real)
    ensures (x + y) * z == x * z + y * z
    ensures (x - y) * z == x * z - y * z
  {}

  lemma TimesNonNegative(x: real, y: real)
    requires x >= 0.0 && y >= 0.0
    ensures x * y >= 0.0
  {}

  lemma TimesPositive(x: real, y: real)
    requires x > 0.0 && y > 0.0
    ensures x * y > 0.0
  {}

  /** A positive factor keeps the order of two numbers. */
  lemma OrderTimes(x: real, y: real, z: real)
    requires z > 0.0
    ensures x <= y <==> x * z <= y * z
  {
    var a, b := x * z, y * z;
    if x <= y {
      Distribute(y, x, z);
      TimesNonNegative(y - x, z);
    } else {
      Distribute(x, y, z);
      TimesPositive(x - y, z);
    }
  }
}
