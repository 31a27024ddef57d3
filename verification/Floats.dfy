/**
 What the proofs use of floating point: each operation is the exact real operation followed by a rounding. Rounding to
 nearest in binary32 and binary64 of IEEE 754 are instances, and so is no rounding at all. Overflow and subnormal results do
 not occur in the code modelled here.
 */
module Floats {
  type Rounding = real -> real

  ghost predicate Monotone(r: Rounding) {
    forall x: real, y: real :: x <= y ==> r(x) <= r(y)
  }

  ghost predicate Idempotent(r: Rounding) {
    forall x: real {:trigger r(r(x))} :: r(r(x)) == r(x)
  }

  /** The relative error for numbers of ordinary size: half a unit in the last place is 2 to the -24, a little less than this. */
  ghost predicate NearSingle(r: Rounding) {
    forall x: real :: 0.00000000001 <= x <= 10_000_000_000_000.0 ==> 0.99999994 * x <= r(x) <= 1.00000006 * x
  }

  /** Here half a unit in the last place is 2 to the -53. */
  ghost predicate NearDouble(r: Rounding) {
    forall x: real :: 0.00000000001 <= x <= 10_000_000_000_000.0 ==> 0.99999999999999988897 * x <= r(x) <= 1.00000000000000011103 * x
  }

  ghost predicate Binary32(r: Rounding) {
    Monotone(r) && Idempotent(r) && r(0.0) == 0.0 && r(0.25) == 0.25 && r(1.0) == 1.0 && NearSingle(r)
  }

  predicate ExactAt(r: Rounding, n: nat) {
    r(n as real) == n as real
  }

  /** Every 32-bit integer is exact in binary64. */
  ghost predicate Binary64(r: Rounding) {
    && Monotone(r) && NearDouble(r) && r(0.5) == 0.5
    && (forall n: nat :: n <= 0x1_0000_0000 ==> ExactAt(r, n))
  }

  /** Exact arithmetic is an instance of both. */
  lemma ExactIsInstance()
    ensures exists same: Rounding :: Binary32(same) && Binary64(same) && forall x :: same(x) == x
  {
    var same: Rounding := x => x;
    assert forall n: nat :: ExactAt(same, n);
    assert Binary32(same) && Binary64(same) && forall x :: same(x) == x;
  }

  lemma NonNegative(a: real, b: real) returns (p: real)
    requires a >= 0.0 && b >= 0.0
    ensures p == a * b && p >= 0.0
  {
    p := a * b;
  }

  /** Products of ordered factors are ordered. */
  lemma ProductOrder(a: real, b: real, t: real)
    requires a <= b && t >= 0.0
    ensures a * t <= b * t && t * a <= t * b
  {
    assert t * (b - a) >= 0.0;
  }

  /** A relative error stays one when everything is scaled. */
  lemma ErrorScales(w: real, x: real, y: real) returns (product: real, exact: real)
    requires w >= 0.0 && 0.99999999999999988897 * x <= y <= 1.00000000000000011103 * x
    ensures product == w * y && exact == w * x
    ensures 0.99999999999999988897 * exact <= product <= 1.00000000000000011103 * exact
  {
    product, exact := w * y, w * x;
    var below, above := w * (y - 0.99999999999999988897 * x), w * (1.00000000000000011103 * x - y);
    assert below >= 0.0 && above >= 0.0;
    assert below == product - 0.99999999999999988897 * exact && above == 1.00000000000000011103 * exact - product;
  }

  lemma FractionOf(w: real, x: real) returns (part: real)
    requires w >= 0.0 && 0.0 <= x <= 1.0
    ensures part == w * x && 0.0 <= part <= w
  {
    part := w * x;
    var rest := w * (1.0 - x);
    assert part >= 0.0 && rest >= 0.0 && rest == w - part;
  }
}
