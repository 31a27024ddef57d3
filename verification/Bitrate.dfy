/**
 The adaptive bitrate controller. `r` is the rounding of its 32-bit floats; the one integer addition wraps at 32 bits.
 */
module Bitrate {
  import opened Basics
  import opened Floats

  /** The code's `clamp` panics unless min <= max. */
  datatype Limits = Limits(min: u32, max: u32, start: u32)

  /** A loss that is not a number compares false with everything. */
  datatype Loss = NaN | Fraction(value: real)

  datatype Sample = Sample(loss: Loss, rtt: u32, estimated: Option<u32>)

  datatype QualityTier = Low | Medium | High | Ultra

  function Clamp(v: int, lo: int, hi: int): (c: int)
    requires lo <= hi
    ensures lo <= c <= hi
  {
    if v < lo then lo else if v > hi then hi else v
  }

  function ClampUnit(x: real): (c: real)
    ensures 0.0 <= c <= 1.0
  {
    if x < 0.0 then 0.0 else if x > 1.0 then 1.0 else x
  }

  /** 10% loss or more: decrease. */
  predicate Lossy(r: Rounding, s: Sample) {
    s.loss.Fraction? && ClampUnit(s.loss.value) >= r(0.10)
  }

  /** At most 2% loss and a healthy round trip: increase. In between, hold. */
  predicate Clean(r: Rounding, s: Sample) {
    s.loss.Fraction? && ClampUnit(s.loss.value) <= r(0.02) && s.rtt <= 400
  }

  /** How far the loss is on the way from 10% to 100%. */
  function Severity(r: Rounding, loss: real): real
    requires Binary32(r)
  {
    Constants(r);
    ClampUnit(r(r(ClampUnit(loss) - r(0.10)) / r(1.0 - r(0.10))))
  }

  /** From 0.85 at 10% loss down to 0.60 at 100%. */
  function Factor(r: Rounding, loss: real): real
    requires Binary32(r)
  {
    r(r(0.85) - r(0.25 * Severity(r, loss)))
  }

  /** The target scaled, fraction dropped. */
  function Scaled(r: Rounding, target: u32, factor: real): int {
    r(r(target as real) * factor).Floor
  }

  /** The increase, before it wraps. */
  function Raised(r: Rounding, target: u32): int {
    target + Scaled(r, target, r(0.08))
  }

  datatype Verdict = Decrease | Increase | Hold

  /** What a sample asks for, and what the target would be lowered and raised to. */
  datatype Proposal = Proposal(verdict: Verdict, lowered: int, raised: int)

  function Propose(r: Rounding, target: u32, s: Sample): Proposal
    requires Binary32(r)
  {
    Proposal(if Lossy(r, s) then Decrease else if Clean(r, s) then Increase else Hold,
             if s.loss.Fraction? then Scaled(r, target, Factor(r, s.loss.value)) else target,
             Raised(r, target))
  }

  /** The proposal carried out in integers: the sum wraps, an estimate caps it, the limits clamp it. */
  function Settle(limits: Limits, target: u32, p: Proposal, estimated: Option<u32>): (t: u32)
    requires limits.min <= limits.max
  {
    match p.verdict
    case Hold => target
    case Decrease => Clamp(p.lowered, limits.min, limits.max)
    case Increase =>
      var next := p.raised % 0x1_0000_0000;
      if estimated.None? then Clamp(next, limits.min, limits.max) else
      var cap := if estimated.value < limits.min then limits.min else estimated.value;
      Clamp(if next < cap then next else cap, limits.min, limits.max)
  }

  function Next(r: Rounding, limits: Limits, target: u32, s: Sample): (t: u32)
    requires Binary32(r) && limits.min <= limits.max
  {
    Settle(limits, target, Propose(r, target, s), s.estimated)
  }

  function Start(limits: Limits): u32
    requires limits.min <= limits.max
  {
    Clamp(limits.start, limits.min, limits.max)
  }

  function Run(r: Rounding, limits: Limits, target: u32, samples: seq<Sample>): u32
    requires Binary32(r) && limits.min <= limits.max
  {
    if samples == [] then target
    else Next(r, limits, Run(r, limits, target, samples[..|samples| - 1]), samples[|samples| - 1])
  }

  function TierFor(bps: u32): QualityTier {
    if bps < 800_000 then Low else if bps < 2_500_000 then Medium else if bps < 5_000_000 then High else Ultra
  }

  predicate InRange(limits: Limits, target: u32) {
    limits.min <= target <= limits.max
  }

  /** The increase wraps for no target up to this one. */
  predicate Fits(r: Rounding, target: u32) {
    Raised(r, target) < 0x1_0000_0000
  }

  // ---------- rounded arithmetic ----------

  lemma Constants(r: Rounding)
    requires Binary32(r)
    ensures 0.0999999 <= r(0.10) <= 0.1000001 && 0.0199999 <= r(0.02) <= 0.0200001
    ensures 0.8499999 <= r(0.85) <= 0.8500001 && 0.0799999 <= r(0.08) <= 0.0800001
    ensures 0.89 <= r(1.0 - r(0.10)) <= 0.91
  {
    var x := 1.0 - r(0.10);
    assert 0.99999994 * x <= r(x) <= 1.00000006 * x;
  }

  lemma TargetRounded(r: Rounding, t: u32)
    requires Binary32(r)
    ensures 0.99999994 * t as real <= r(t as real) <= 1.00000006 * t as real && r(t as real) >= 0.0
  {
    assert r(0.0) <= r(t as real);
  }

  lemma LossProduct(y: real, f: real) returns (p: real)
    requires y >= 0.0 && 0.5999 <= f <= 0.8500001
    ensures p == y * f && 0.5999 * y <= p <= 0.8500001 * y
  {
    p := y * f;
    assert y * (f - 0.5999) >= 0.0 && y * (0.8500001 - f) >= 0.0;
  }

  /** The float product of a target and a factor for loss, dropped to an integer. */
  lemma LossFloor(r: Rounding, t: u32, p: real)
    requires Binary32(r) && 0.5999 * r(t as real) <= p <= 0.8500001 * r(t as real)
    ensures 0.5998 * t as real - 1.0 < r(p).Floor as real <= 0.850001 * t as real
    ensures 0 <= r(p).Floor <= t
  {
    TargetRounded(r, t);
    if t == 0 {
      assert r(0.0) == 0.0 && p == 0.0;
    } else {
      assert 0.99999994 * p <= r(p) <= 1.00000006 * p;
    }
  }

  /** Loss takes about 15% to 40% off. */
  lemma LoweredBounds(r: Rounding, t: u32, f: real)
    requires Binary32(r) && 0.5999 <= f <= 0.8500001
    ensures 0.5998 * t as real - 1.0 < Scaled(r, t, f) as real <= 0.850001 * t as real
    ensures 0 <= Scaled(r, t, f) <= t
  {
    TargetRounded(r, t);
    var p := LossProduct(r(t as real), f);
    LossFloor(r, t, p);
  }

  lemma ScaledMonotone(r: Rounding, a: u32, b: u32, f: real, g: real)
    requires Monotone(r) && r(0.0) == 0.0 && a <= b && 0.0 <= f <= g
    ensures 0 <= Scaled(r, a, f) <= Scaled(r, b, g)
  {
    var x, y := RoundedOrder(r, a, b);
    ProductsOrdered(r, x, y, f, g);
    assert Scaled(r, a, f) == r(x * f).Floor;
    assert Scaled(r, b, g) == r(y * g).Floor;
  }

  lemma RoundedOrder(r: Rounding, a: u32, b: u32) returns (x: real, y: real)
    requires Monotone(r) && r(0.0) == 0.0 && a <= b
    ensures x == r(a as real) && y == r(b as real) && 0.0 <= x <= y
  {
    x, y := r(a as real), r(b as real);
    assert r(0.0) <= x;
  }

  lemma ProductsOrdered(r: Rounding, x: real, y: real, f: real, g: real)
    requires Monotone(r) && r(0.0) == 0.0 && 0.0 <= x <= y && 0.0 <= f <= g
    ensures 0 <= r(x * f).Floor <= r(y * g).Floor
  {
    assert x * f >= 0.0 && (y - x) * f >= 0.0 && y * (g - f) >= 0.0;
    OrderedFloors(r, x * f, y * g);
  }

  lemma OrderedFloors(r: Rounding, p: real, q: real)
    requires Monotone(r) && r(0.0) == 0.0 && 0.0 <= p <= q
    ensures 0 <= r(p).Floor <= r(q).Floor
  {
    assert r(0.0) <= r(p) <= r(q);
  }

  lemma RaiseProduct(y: real, f: real) returns (p: real)
    requires y >= 0.0 && 0.0799999 <= f <= 0.0800001
    ensures p == y * f && 0.0799999 * y <= p <= 0.0800001 * y
  {
    p := y * f;
    assert y * (f - 0.0799999) >= 0.0 && y * (0.0800001 - f) >= 0.0;
  }

  lemma RaiseFloor(r: Rounding, t: u32, p: real)
    requires Binary32(r) && 0.0799999 * r(t as real) <= p <= 0.0800001 * r(t as real)
    ensures 0.0799998 * t as real - 1.0 < r(p).Floor as real <= 0.0800002 * t as real
    ensures 0 <= r(p).Floor && (t < 13 ==> r(p).Floor == 0) && (t >= 13 ==> r(p).Floor >= 1)
  {
    TargetRounded(r, t);
    if t == 0 {
      assert r(0.0) == 0.0 && p == 0.0;
    } else {
      assert 0.99999994 * p <= r(p) <= 1.00000006 * p;
    }
  }

  lemma RaisedBy(r: Rounding, t: u32, f: real)
    requires Binary32(r) && 0.0799999 <= f <= 0.0800001
    ensures 0.0799998 * t as real - 1.0 < Scaled(r, t, f) as real <= 0.0800002 * t as real
    ensures 0 <= Scaled(r, t, f) && (t < 13 ==> Scaled(r, t, f) == 0) && (t >= 13 ==> Scaled(r, t, f) >= 1)
  {
    TargetRounded(r, t);
    var p := RaiseProduct(r(t as real), f);
    RaiseFloor(r, t, p);
  }

  /** The raise is about 8%, rounded down: nothing below 13. */
  lemma RaiseBounds(r: Rounding, t: u32)
    requires Binary32(r)
    ensures 1.0799998 * t as real - 1.0 < Raised(r, t) as real <= 1.0800002 * t as real
    ensures t <= Raised(r, t) && (t < 13 ==> Raised(r, t) == t) && (t >= 13 ==> Raised(r, t) > t)
  {
    Constants(r);
    RaisedBy(r, t, r(0.08));
  }

  lemma RaiseMonotone(r: Rounding, a: u32, b: u32)
    requires Binary32(r) && a <= b
    ensures Raised(r, a) <= Raised(r, b)
  {
    Constants(r);
    ScaledMonotone(r, a, b, r(0.08), r(0.08));
  }

  /** The raise wraps from about 3.98 billion up, and then leaves little. */
  lemma RaiseWraps(r: Rounding, t: u32)
    requires Binary32(r)
    ensures t <= 3_976_800_000 ==> Fits(r, t)
    ensures t >= 3_976_900_000 ==> !Fits(r, t)
    ensures !Fits(r, t) ==> 0 <= Raised(r, t) - 0x1_0000_0000 == Raised(r, t) % 0x1_0000_0000 < 350_000_000
    ensures Fits(r, t) ==> Raised(r, t) % 0x1_0000_0000 == Raised(r, t)
  {
    RaiseBounds(r, t);
    WrapOnce(Raised(r, t));
  }

  lemma WrapOnce(n: nat)
    requires n < 2 * 0x1_0000_0000
    ensures n % 0x1_0000_0000 == if n < 0x1_0000_0000 then n else n - 0x1_0000_0000
  {
  }

  // ---------- the factor ----------

  lemma SeverityMonotone(r: Rounding, a: real, b: real)
    requires Binary32(r) && a <= b
    ensures Severity(r, a) <= Severity(r, b)
  {
    Constants(r);
    var d := r(1.0 - r(0.10));
    var x, y := r(ClampUnit(a) - r(0.10)), r(ClampUnit(b) - r(0.10));
    assert x <= y;
    QuotientOrder(x, y, d);
  }

  lemma QuotientOrder(x: real, y: real, d: real)
    requires x <= y && d > 0.0
    ensures x / d <= y / d
  {
  }

  lemma FactorMonotone(r: Rounding, a: real, b: real)
    requires Binary32(r) && a <= b
    ensures Factor(r, b) <= Factor(r, a)
  {
    SeverityMonotone(r, a, b);
    assert r(0.25 * Severity(r, a)) <= r(0.25 * Severity(r, b));
  }

  lemma FactorBounds(r: Rounding, loss: real)
    requires Binary32(r)
    ensures 0.5999 <= Factor(r, loss) <= r(0.85) <= 0.8500001
  {
    Constants(r);
    var off := r(0.25 * Severity(r, loss));
    assert r(0.0) <= off <= r(0.25);
    assert r(r(0.85)) == r(0.85);
    var x := r(0.85) - off;
    assert 0.99999994 * x <= r(x) <= 1.00000006 * x;
  }

  lemma SeverityEnds(r: Rounding)
    requires Binary32(r)
    ensures Severity(r, r(0.10)) == 0.0 && Severity(r, 1.0) == 1.0
  {
    Constants(r);
    var d := r(1.0 - r(0.10));
    assert r(d) == d;
    assert d / d == 1.0 && 0.0 / d == 0.0;
  }

  /** At 10% loss the factor is 0.85 itself; at total loss it has reached its lower end. */
  lemma FactorEnds(r: Rounding)
    requires Binary32(r)
    ensures Factor(r, r(0.10)) == r(0.85) && Factor(r, 1.0) == r(r(0.85) - 0.25)
  {
    SeverityEnds(r);
    assert r(r(0.85)) == r(0.85);
  }

  lemma SeverityQuotient(y: real, d: real) returns (q: real)
    requires 0.0 <= y <= 0.9000002 && 0.8999998 <= d <= 0.9000002
    ensures q == y / d && 0.0 <= q <= 1.000001 && y - 0.0000003 <= 0.9 * q <= y + 0.0000003
  {
    q := y / d;
    assert q * d == y && q >= 0.0;
    SmallExcess(q, y, d);
  }

  lemma SmallExcess(q: real, y: real, d: real)
    requires 0.0 <= y <= 0.9000002 && 0.8999998 <= d <= 0.9000002 && q >= 0.0 && q * d == y
    ensures q <= 1.000001 && y - 0.0000003 <= 0.9 * q <= y + 0.0000003
  {
    var lo, hi := d - 0.8999998, 0.9000002 - d;
    var above := NonNegative(q, lo);
    var below := NonNegative(q, hi);
    assert above == y - 0.8999998 * q && below == 0.9000002 * q - y;
  }

  lemma SingleError(r: Rounding, x: real)
    requires Binary32(r) && 0.0 <= x <= 2.0
    ensures x - 0.00000013 <= r(x) <= x + 0.00000013 && r(x) >= 0.0
  {
    assert r(0.0) <= r(x);
    if x < 0.00000000001 { assert r(x) <= r(0.00000000001); }
  }

  /** In between the factor falls with the loss in a straight line, to within a millionth, rounding included. */
  lemma FactorIsLinear(r: Rounding, loss: real)
    requires Binary32(r) && r(0.10) <= loss <= 1.0
    ensures var line := 0.85 - 0.25 * (loss - 0.10) / 0.90; line - 0.000001 <= Factor(r, loss) <= line + 0.000001
  {
    Constants(r);
    var x, z := loss - r(0.10), 1.0 - r(0.10);
    assert 0.99999994 * 0.10 <= r(0.10) <= 1.00000006 * 0.10;
    assert 0.99999994 * 0.85 <= r(0.85) <= 1.00000006 * 0.85;
    assert 0.99999994 * z <= r(z) <= 1.00000006 * z;
    SingleError(r, x);
    assert r(x) <= 0.9000002 by { assert r(x) <= 1.00000006 * 0.9 + 0.0000001; }
    var q := SeverityQuotient(r(x), r(z));
    SingleError(r, q);
    var severity := ClampUnit(r(q));
    assert severity == Severity(r, loss);
    SingleError(r, 0.25 * severity);
    SingleError(r, r(0.85) - r(0.25 * severity));
  }

  // ---------- one sample ----------

  /** What floats say about a proposal: about 15% to 40% down, about 8% up and nothing below 13. */
  predicate Sensible(target: u32, p: Proposal) {
    && (p.verdict == Decrease ==>
         0 <= p.lowered <= target && 0.5998 * target as real - 1.0 < p.lowered as real <= 0.850001 * target as real)
    && target <= p.raised && 1.0799998 * target as real - 1.0 < p.raised as real <= 1.0800002 * target as real
    && (target < 13 ==> p.raised == target) && (target >= 13 ==> p.raised > target)
  }

  lemma ProposalsSensible(r: Rounding, target: u32, s: Sample)
    requires Binary32(r)
    ensures Sensible(target, Propose(r, target, s))
  {
    RaiseBounds(r, target);
    if s.loss.Fraction? {
      FactorBounds(r, s.loss.value);
      LoweredBounds(r, target, Factor(r, s.loss.value));
    }
  }

  lemma VerdictIs(r: Rounding, target: u32, s: Sample)
    requires Binary32(r)
    ensures Propose(r, target, s).verdict == Decrease <==> Lossy(r, s)
    ensures Propose(r, target, s).verdict == Increase <==> Clean(r, s)
    ensures Propose(r, target, s).raised == Raised(r, target)
  {
    Constants(r);
  }

  lemma SettleLossy(limits: Limits, target: u32, p: Proposal, estimated: Option<u32>)
    requires limits.min <= limits.max && InRange(limits, target) && Sensible(target, p) && p.verdict == Decrease
    ensures var t := Settle(limits, target, p, estimated);
      t <= target && (t == limits.min || t as real <= 0.850001 * target as real) && t as real > 0.5998 * target as real - 1.0
  {
  }

  /** A lossy sample never raises the target: it takes at least 15% off, down to the minimum, and floor aside at most 40% and a bit. */
  lemma LossyStep(r: Rounding, limits: Limits, target: u32, s: Sample)
    requires Binary32(r) && limits.min <= limits.max && InRange(limits, target) && Lossy(r, s)
    ensures Next(r, limits, target, s) <= target
    ensures Next(r, limits, target, s) == limits.min || Next(r, limits, target, s) as real <= 0.850001 * target as real
    ensures Next(r, limits, target, s) as real > 0.5998 * target as real - 1.0
  {
    ProposalsSensible(r, target, s);
    VerdictIs(r, target, s);
    SettleLossy(limits, target, Propose(r, target, s), s.estimated);
  }

  /** A clean sample never takes the target above the receiver's estimate, except to the minimum. */
  lemma EstimateCaps(r: Rounding, limits: Limits, target: u32, s: Sample)
    requires Binary32(r) && limits.min <= limits.max && Clean(r, s) && s.estimated.Some?
    ensures Next(r, limits, target, s) <= limits.min || Next(r, limits, target, s) <= s.estimated.value
  {
    VerdictIs(r, target, s);
  }

  lemma SettleClean(limits: Limits, target: u32, p: Proposal)
    requires limits.min <= limits.max && InRange(limits, target) && Sensible(target, p)
    requires p.verdict == Increase && p.raised < 0x1_0000_0000
    ensures var t := Settle(limits, target, p, None);
      && t >= target && (target >= 13 ==> t as real >= Min(limits.max as real, 1.04 * target as real))
      && (target < 13 ==> t == target)
  {
  }

  /** A clean sample without an estimate raises a target of 13 or more by at least 4%, up to the maximum, if nothing wraps. */
  lemma CleanStep(r: Rounding, limits: Limits, target: u32, s: Sample)
    requires Binary32(r) && limits.min <= limits.max && Fits(r, limits.max) && InRange(limits, target)
    requires Clean(r, s) && s.estimated.None?
    ensures Next(r, limits, target, s) >= target
    ensures target >= 13 ==> Next(r, limits, target, s) as real >= Min(limits.max as real, 1.04 * target as real)
    ensures target < 13 ==> Next(r, limits, target, s) == target
  {
    ProposalsSensible(r, target, s);
    VerdictIs(r, target, s);
    RaiseMonotone(r, target, limits.max);
    SettleClean(limits, target, Propose(r, target, s));
  }

  // ---------- which way ----------

  lemma LossIs(r: Rounding, s: Sample)
    requires Binary32(r)
    ensures Lossy(r, s) <==> s.loss.Fraction? && s.loss.value >= r(0.10)
    ensures Clean(r, s) <==> s.loss.Fraction? && s.loss.value <= r(0.02) && s.rtt <= 400
    ensures !(Lossy(r, s) && Clean(r, s))
  {
    Constants(r);
  }

  /**
   Strictly inside the limits, with no estimate and no wrap, the target falls exactly on a loss of 10% or more, rises
   exactly on a loss of at most 2% with a round trip of at most 400 ms, and otherwise stays.
   */
  lemma DirectionIff(r: Rounding, limits: Limits, target: u32, s: Sample)
    requires Binary32(r) && limits.min < target < limits.max && target >= 13 && Fits(r, limits.max) && s.estimated.None?
    ensures Next(r, limits, target, s) < target <==> s.loss.Fraction? && s.loss.value >= r(0.10)
    ensures Next(r, limits, target, s) > target <==> s.loss.Fraction? && s.loss.value <= r(0.02) && s.rtt <= 400
  {
    LossIs(r, s);
    if Lossy(r, s) {
      LossyStep(r, limits, target, s);
    } else if Clean(r, s) {
      CleanStep(r, limits, target, s);
    } else {
      HeldBetween(r, limits, target, s);
    }
  }

  /** Between the two thresholds, on a slow round trip without heavy loss, and on a loss that is not a number, nothing moves. */
  lemma HeldBetween(r: Rounding, limits: Limits, target: u32, s: Sample)
    requires Binary32(r) && limits.min <= limits.max
    requires s.loss.NaN? || (s.loss.value < r(0.10) && (s.loss.value > r(0.02) || s.rtt > 400))
    ensures Next(r, limits, target, s) == target
  {
    LossIs(r, s);
    VerdictIs(r, target, s);
  }

  /** An estimate only ever lowers what a clean sample would have given, to itself or the minimum. */
  lemma EstimateOnlyCaps(r: Rounding, limits: Limits, target: u32, s: Sample)
    requires Binary32(r) && limits.min <= limits.max && InRange(limits, target) && Fits(r, limits.max)
    requires Clean(r, s) && s.estimated.Some?
    ensures var free, e := Next(r, limits, target, s.(estimated := None)), s.estimated.value;
      Next(r, limits, target, s) == if e >= free then free else if e < limits.min then limits.min else e
  {
    var open := s.(estimated := None);
    ProposalsSensible(r, target, s);
    VerdictIs(r, target, s);
    VerdictIs(r, target, open);
    RaiseMonotone(r, target, limits.max);
    SettleCapped(limits, target, Propose(r, target, s), Propose(r, target, open), s.estimated);
  }

  lemma SettleCapped(limits: Limits, target: u32, p: Proposal, q: Proposal, estimated: Option<u32>)
    requires limits.min <= limits.max && InRange(limits, target) && Sensible(target, p) && estimated.Some?
    requires p.verdict == q.verdict == Increase && p.raised == q.raised < 0x1_0000_0000
    ensures var free, e := Settle(limits, target, q, None), estimated.value;
      Settle(limits, target, p, estimated) == if e >= free then free else if e < limits.min then limits.min else e
  {
  }

  // ---------- more loss ----------

  lemma LoweredByLoss(r: Rounding, target: u32, a: real, b: real)
    requires Binary32(r) && a <= b
    ensures Scaled(r, target, Factor(r, b)) <= Scaled(r, target, Factor(r, a))
  {
    FactorMonotone(r, a, b);
    FactorBounds(r, b);
    ScaledMonotone(r, target, target, Factor(r, b), Factor(r, a));
  }

  lemma VerdictByLoss(r: Rounding, target: u32, better: Sample, worse: Sample)
    requires Binary32(r) && better.rtt == worse.rtt
    requires better.loss.Fraction? && worse.loss.Fraction? && better.loss.value <= worse.loss.value
    ensures var p, q := Propose(r, target, better), Propose(r, target, worse);
      (p.verdict == Decrease ==> q.verdict == Decrease) && (q.verdict == Increase ==> p.verdict == Increase)
  {
    VerdictIs(r, target, better);
    VerdictIs(r, target, worse);
    Constants(r);
  }

  lemma ProposalsByLoss(r: Rounding, target: u32, better: Sample, worse: Sample)
    requires Binary32(r) && better.rtt == worse.rtt
    requires better.loss.Fraction? && worse.loss.Fraction? && better.loss.value <= worse.loss.value
    ensures var p, q := Propose(r, target, better), Propose(r, target, worse);
      && p.raised == q.raised && q.lowered <= p.lowered
      && (p.verdict == Decrease ==> q.verdict == Decrease) && (q.verdict == Increase ==> p.verdict == Increase)
  {
    VerdictByLoss(r, target, better, worse);
    LoweredByLoss(r, target, better.loss.value, worse.loss.value);
  }

  lemma SettleByLoss(limits: Limits, target: u32, p: Proposal, q: Proposal, estimated: Option<u32>)
    requires limits.min <= limits.max && InRange(limits, target) && Sensible(target, p) && Sensible(target, q)
    requires p.raised == q.raised < 0x1_0000_0000 && q.lowered <= p.lowered
    requires (p.verdict == Decrease ==> q.verdict == Decrease) && (q.verdict == Increase ==> p.verdict == Increase)
    requires estimated.Some? ==> estimated.value >= target
    ensures Settle(limits, target, q, estimated) <= Settle(limits, target, p, estimated)
  {
  }

  /** More loss never gives a higher target, unless the cleaner sample's estimate or a wrapping sum pulls it down. */
  lemma LossNeverHelps(r: Rounding, limits: Limits, target: u32, better: Sample, worse: Sample)
    requires Binary32(r) && limits.min <= limits.max && Fits(r, limits.max) && InRange(limits, target)
    requires better.loss.Fraction? && worse.loss.Fraction? && better.loss.value <= worse.loss.value
    requires better.rtt == worse.rtt && better.estimated == worse.estimated
    requires better.estimated.Some? ==> better.estimated.value >= target
    ensures Next(r, limits, target, worse) <= Next(r, limits, target, better)
  {
    ProposalsSensible(r, target, better);
    ProposalsSensible(r, target, worse);
    ProposalsByLoss(r, target, better, worse);
    VerdictIs(r, target, better);
    RaiseMonotone(r, target, limits.max);
    SettleByLoss(limits, target, Propose(r, target, better), Propose(r, target, worse), better.estimated);
  }

  lemma NextInRange(r: Rounding, limits: Limits, target: u32, s: Sample)
    requires Binary32(r) && limits.min <= limits.max && InRange(limits, target)
    ensures InRange(limits, Next(r, limits, target, s))
  {
  }

  // ---------- order ----------

  predicate OrderKept(r: Rounding, limits: Limits, low: u32, high: u32, s: Sample)
    requires Binary32(r) && limits.min <= limits.max
  {
    Next(r, limits, low, s) <= Next(r, limits, high, s)
  }

  /** The sums of two proposals, when both fit or both wrap. */
  predicate SameSide(limits: Limits, p: Proposal, q: Proposal) {
    || (0 <= p.raised <= q.raised < 0x1_0000_0000)
    || (0x1_0000_0000 <= p.raised <= q.raised < 0x1_0000_0000 + 350_000_000 && limits.min >= 350_000_000)
  }

  lemma ProposalsOrdered(r: Rounding, limits: Limits, low: u32, high: u32, s: Sample)
    requires Binary32(r) && low <= high
    requires InRange(limits, low) && InRange(limits, high) && (Fits(r, limits.max) || !Fits(r, limits.min))
    ensures var p, q := Propose(r, low, s), Propose(r, high, s);
      p.verdict == q.verdict && p.lowered <= q.lowered && SameSide(limits, p, q)
  {
    if s.loss.Fraction? {
      FactorBounds(r, s.loss.value);
      ScaledMonotone(r, low, high, Factor(r, s.loss.value), Factor(r, s.loss.value));
    }
    RaisesOnOneSide(r, limits, low, high);
  }

  lemma RaisesOnOneSide(r: Rounding, limits: Limits, low: u32, high: u32)
    requires Binary32(r) && low <= high
    requires InRange(limits, low) && InRange(limits, high) && (Fits(r, limits.max) || !Fits(r, limits.min))
    ensures || (0 <= Raised(r, low) <= Raised(r, high) < 0x1_0000_0000)
            || (0x1_0000_0000 <= Raised(r, low) <= Raised(r, high) < 0x1_0000_0000 + 350_000_000 && limits.min >= 350_000_000)
  {
    RaiseMonotone(r, limits.min, low);
    RaiseMonotone(r, low, high);
    RaiseMonotone(r, high, limits.max);
    RaiseBounds(r, low);
    RaiseWraps(r, high);
    RaiseWraps(r, limits.min);
  }

  lemma SettleOrdered(limits: Limits, low: u32, high: u32, p: Proposal, q: Proposal, estimated: Option<u32>)
    requires limits.min <= limits.max && InRange(limits, low) && InRange(limits, high) && low <= high
    requires p.verdict == q.verdict && p.lowered <= q.lowered && SameSide(limits, p, q)
    ensures Settle(limits, low, p, estimated) <= Settle(limits, high, q, estimated)
  {
  }

  lemma StepKeepsOrder(r: Rounding, limits: Limits, low: u32, high: u32, s: Sample)
    requires Binary32(r) && limits.min <= limits.max && InRange(limits, low) && InRange(limits, high) && low <= high
    requires Fits(r, limits.max) || !Fits(r, limits.min)
    ensures OrderKept(r, limits, low, high, s)
  {
    ProposalsOrdered(r, limits, low, high, s);
    SettleOrdered(limits, low, high, Propose(r, low, s), Propose(r, high, s), s.estimated);
  }

  /** The last target whose raise fits. */
  lemma LastFitting(r: Rounding, lo: u32, hi: u32) returns (t: u32)
    requires lo < hi && Fits(r, lo) && !Fits(r, hi)
    ensures lo <= t < hi && Fits(r, t)
    ensures !Fits(r, t + 1)
    decreases hi - lo
  {
    if Fits(r, lo + 1) { t := LastFitting(r, lo + 1, hi); } else { t := lo; }
  }

  lemma SettleReversed(limits: Limits, low: u32, p: Proposal, q: Proposal)
    requires limits.min <= low < limits.max && p.verdict == q.verdict == Increase
    requires 350_000_000 <= low < p.raised < 0x1_0000_0000 <= q.raised < 0x1_0000_0000 + 350_000_000
    ensures Settle(limits, low, p, None) > Settle(limits, limits.max, q, None)
  {
  }

  /** Where the raise begins to wrap within the limits, the higher of two targets falls below the lower. */
  lemma OrderLost(r: Rounding, limits: Limits) returns (low: u32, s: Sample)
    requires Binary32(r) && limits.min <= limits.max && Fits(r, limits.min) && !Fits(r, limits.max)
    ensures InRange(limits, low) && low <= limits.max && !OrderKept(r, limits, low, limits.max, s)
  {
    low := LastFitting(r, limits.min, limits.max);
    s := Sample(Fraction(0.0), 0, None);
    RaiseWraps(r, low + 1);
    RaiseWraps(r, limits.max);
    RaiseBounds(r, low);
    StreamIsClean(r, 1);
    assert s == CleanStream(1)[0];
    VerdictIs(r, low, s);
    VerdictIs(r, limits.max, s);
    SettleReversed(limits, low, Propose(r, low, s), Propose(r, limits.max, s));
  }

  /**
   Two controllers fed the same samples keep their order, whatever the samples, exactly when the raise wraps for none or for
   all targets in the limits.
   */
  lemma OrderKeptIff(r: Rounding, limits: Limits)
    requires Binary32(r) && limits.min <= limits.max
    ensures (forall low: u32, high: u32, s: Sample ::
              InRange(limits, low) && InRange(limits, high) && low <= high ==> OrderKept(r, limits, low, high, s))
       <==> (Fits(r, limits.max) || !Fits(r, limits.min))
  {
    if Fits(r, limits.max) || !Fits(r, limits.min) {
      forall low: u32, high: u32, s: Sample | InRange(limits, low) && InRange(limits, high) && low <= high
        ensures OrderKept(r, limits, low, high, s)
      {
        StepKeepsOrder(r, limits, low, high, s);
      }
    } else {
      var low, s := OrderLost(r, limits);
    }
  }

  lemma {:induction false} RunKeepsOrder(r: Rounding, limits: Limits, low: u32, high: u32, samples: seq<Sample>)
    requires Binary32(r) && limits.min <= limits.max && InRange(limits, low) && InRange(limits, high) && low <= high
    requires Fits(r, limits.max) || !Fits(r, limits.min)
    ensures InRange(limits, Run(r, limits, low, samples)) && InRange(limits, Run(r, limits, high, samples))
    ensures Run(r, limits, low, samples) <= Run(r, limits, high, samples)
  {
    if samples != [] {
      var last := |samples| - 1;
      RunKeepsOrder(r, limits, low, high, samples[..last]);
      var a, b := Run(r, limits, low, samples[..last]), Run(r, limits, high, samples[..last]);
      NextInRange(r, limits, a, samples[last]);
      NextInRange(r, limits, b, samples[last]);
      StepKeepsOrder(r, limits, a, b, samples[last]);
    }
  }

  // ---------- whole streams ----------

  /** A controller starts as close to its start value as the limits allow. */
  lemma StartsNearest(limits: Limits, other: u32)
    requires limits.min <= limits.max && InRange(limits, other)
    ensures InRange(limits, Start(limits))
    ensures Distance(limits.start, Start(limits)) <= Distance(limits.start, other)
  {
  }

  function Distance(a: int, b: int): int {
    if a < b then b - a else a - b
  }

  /** The target never leaves the limits. */
  lemma StaysInRange(r: Rounding, limits: Limits, samples: seq<Sample>)
    requires Binary32(r) && limits.min <= limits.max
    ensures InRange(limits, Run(r, limits, Start(limits), samples))
  {
    RunInRange(r, limits, Start(limits), samples);
  }

  lemma {:induction false} RunInRange(r: Rounding, limits: Limits, target: u32, samples: seq<Sample>)
    requires Binary32(r) && limits.min <= limits.max && InRange(limits, target)
    ensures InRange(limits, Run(r, limits, target, samples))
  {
    if samples != [] {
      var last := |samples| - 1;
      RunInRange(r, limits, target, samples[..last]);
      NextInRange(r, limits, Run(r, limits, target, samples[..last]), samples[last]);
    }
  }

  /** The targets a stream goes through. */
  function Trail(r: Rounding, limits: Limits, target: u32, samples: seq<Sample>): seq<u32>
    requires Binary32(r) && limits.min <= limits.max
  {
    seq(|samples| + 1, i requires 0 <= i <= |samples| => Run(r, limits, target, samples[..i]))
  }

  lemma TrailStep(r: Rounding, limits: Limits, target: u32, samples: seq<Sample>, i: nat) returns (before: u32, after: u32)
    requires Binary32(r) && limits.min <= limits.max && InRange(limits, target) && i < |samples|
    ensures before == Trail(r, limits, target, samples)[i] && after == Trail(r, limits, target, samples)[i + 1]
    ensures InRange(limits, before) && after == Next(r, limits, before, samples[i])
  {
    before, after := Run(r, limits, target, samples[..i]), Run(r, limits, target, samples[..i + 1]);
    RunInRange(r, limits, target, samples[..i]);
    assert samples[..i + 1][..i] == samples[..i];
  }

  lemma TrailEnds(r: Rounding, limits: Limits, target: u32, samples: seq<Sample>)
    requires Binary32(r) && limits.min <= limits.max
    ensures Trail(r, limits, target, samples)[0] == target
    ensures Trail(r, limits, target, samples)[|samples|] == Run(r, limits, target, samples)
  {
    assert samples[..|samples|] == samples;
  }

  /** `x` times 0.850001 to the power `n`. */
  function Decay(x: real, n: nat): real {
    if n == 0 then x else 0.850001 * Decay(x, n - 1)
  }

  /** `x` times 1.04 to the power `n`. */
  function Growth(x: real, n: nat): real {
    if n == 0 then x else 1.04 * Growth(x, n - 1)
  }

  function Max(a: real, b: real): real {
    if a < b then b else a
  }

  function Min(a: real, b: real): real {
    if a < b then a else b
  }

  predicate Drops(limits: Limits, before: u32, after: u32) {
    after <= before && (after == limits.min || after as real <= 0.850001 * before as real)
  }

  predicate Climbs(limits: Limits, before: u32, after: u32) {
    && after >= before && (before < 13 ==> after == before)
    && (before >= 13 ==> after as real >= Min(limits.max as real, 1.04 * before as real))
  }

  lemma {:induction false} DropsDecay(limits: Limits, trail: seq<u32>, n: nat)
    requires n < |trail| && forall i :: 0 <= i < n ==> Drops(limits, trail[i], trail[i + 1])
    ensures trail[n] as real <= Max(limits.min as real, Decay(trail[0] as real, n))
  {
    if n > 0 {
      DropsDecay(limits, trail, n - 1);
      assert Drops(limits, trail[n - 1], trail[n - 1 + 1]);
    }
  }

  lemma {:induction false} ClimbsGrow(limits: Limits, trail: seq<u32>, n: nat)
    requires n < |trail| && forall i :: 0 <= i < n ==> Climbs(limits, trail[i], trail[i + 1])
    ensures trail[n] >= trail[0] && (trail[0] < 13 ==> trail[n] == trail[0])
    ensures trail[0] >= 13 ==> trail[n] as real >= Min(limits.max as real, Growth(trail[0] as real, n))
  {
    if n > 0 {
      ClimbsGrow(limits, trail, n - 1);
      assert Climbs(limits, trail[n - 1], trail[n - 1 + 1]);
    }
  }

  /** `n` samples of 10% loss or more bring the target down to the minimum or by a factor 0.85 each, rounding included. */
  lemma LossDecays(r: Rounding, limits: Limits, target: u32, samples: seq<Sample>)
    requires Binary32(r) && limits.min <= limits.max && InRange(limits, target)
    requires forall i :: 0 <= i < |samples| ==> Lossy(r, samples[i])
    ensures Run(r, limits, target, samples) as real <= Max(limits.min as real, Decay(target as real, |samples|))
  {
    var trail := Trail(r, limits, target, samples);
    forall i | 0 <= i < |samples| ensures Drops(limits, trail[i], trail[i + 1]) {
      var before, after := TrailStep(r, limits, target, samples, i);
      LossyStep(r, limits, before, samples[i]);
    }
    DropsDecay(limits, trail, |samples|);
    TrailEnds(r, limits, target, samples);
  }

  lemma CleanStepClimbs(r: Rounding, limits: Limits, before: u32, s: Sample, after: u32)
    requires Binary32(r) && limits.min <= limits.max && Fits(r, limits.max) && InRange(limits, before)
    requires Clean(r, s) && s.estimated.None? && after == Next(r, limits, before, s)
    ensures Climbs(limits, before, after)
  {
    CleanStep(r, limits, before, s);
  }

  lemma CleanClimbs(r: Rounding, limits: Limits, target: u32, samples: seq<Sample>)
    requires Binary32(r) && limits.min <= limits.max && Fits(r, limits.max) && InRange(limits, target)
    requires forall i :: 0 <= i < |samples| ==> Clean(r, samples[i]) && samples[i].estimated.None?
    ensures var trail := Trail(r, limits, target, samples);
      forall i :: 0 <= i < |samples| ==> Climbs(limits, trail[i], trail[i + 1])
  {
    var trail := Trail(r, limits, target, samples);
    forall i | 0 <= i < |samples| ensures Climbs(limits, trail[i], trail[i + 1]) {
      var before, after := TrailStep(r, limits, target, samples, i);
      CleanStepClimbs(r, limits, before, samples[i], after);
    }
  }

  /** A clean stream without estimates never lowers the target, and from 13 on raises it by 4% a sample to the maximum. */
  lemma CleanGrows(r: Rounding, limits: Limits, target: u32, samples: seq<Sample>)
    requires Binary32(r) && limits.min <= limits.max && Fits(r, limits.max) && InRange(limits, target)
    requires forall i :: 0 <= i < |samples| ==> Clean(r, samples[i]) && samples[i].estimated.None?
    ensures target <= Run(r, limits, target, samples) <= limits.max
    ensures target >= 13 ==> Run(r, limits, target, samples) as real >= Min(limits.max as real, Growth(target as real, |samples|))
    ensures target < 13 ==> Run(r, limits, target, samples) == target
  {
    CleanClimbs(r, limits, target, samples);
    ClimbsGrow(limits, Trail(r, limits, target, samples), |samples|);
    TrailEnds(r, limits, target, samples);
    RunInRange(r, limits, target, samples);
  }

  function CleanStream(n: nat): seq<Sample> {
    seq(n, i => Sample(Fraction(0.0), 0, None))
  }

  lemma {:induction false} GrowthIsLinear(t: nat, n: nat)
    ensures Growth(t as real, n) >= t as real + 0.04 * (n * t) as real
  {
    if n > 0 {
      GrowthIsLinear(t, n - 1);
      assert n * t == (n - 1) * t + t;
      assert (n - 1) * t >= 0;
    }
  }

  lemma GrowthReaches(t: nat, n: nat, max: nat)
    requires n * t >= 25 * max
    ensures Growth(t as real, n) >= max as real
  {
    GrowthIsLinear(t, n);
  }

  lemma StreamIsClean(r: Rounding, n: nat)
    requires Binary32(r)
    ensures forall i :: 0 <= i < n ==> Clean(r, CleanStream(n)[i]) && CleanStream(n)[i].estimated.None?
  {
    Constants(r);
  }

  /** From 13 on, 25 * max / target clean samples without an estimate are enough to reach the maximum. */
  lemma EnoughSamples(r: Rounding, limits: Limits, target: u32, n: nat)
    requires Binary32(r) && limits.min <= limits.max && Fits(r, limits.max) && InRange(limits, target)
    requires target >= 13 && n * target >= 25 * limits.max
    ensures Run(r, limits, target, CleanStream(n)) == limits.max
  {
    StreamIsClean(r, n);
    CleanGrows(r, limits, target, CleanStream(n));
    GrowthReaches(target, n, limits.max);
  }

  lemma StuckBelow(r: Rounding, limits: Limits, target: u32, n: nat)
    requires Binary32(r) && limits.min <= limits.max && Fits(r, limits.max) && InRange(limits, target) && target < 13
    ensures Run(r, limits, target, CleanStream(n)) == target
  {
    StreamIsClean(r, n);
    CleanGrows(r, limits, target, CleanStream(n));
  }

  lemma AtLeastOnce(n: nat, t: nat)
    requires t >= 1
    ensures n * t >= n
  {
    assert n * (t - 1) >= 0;
  }

  lemma ReachedInTime(r: Rounding, limits: Limits, target: u32) returns (n: nat)
    requires Binary32(r) && limits.min <= limits.max && Fits(r, limits.max) && InRange(limits, target) && target >= 13
    ensures Run(r, limits, target, CleanStream(n)) == limits.max
  {
    n := 25 * limits.max;
    AtLeastOnce(n, target);
    EnoughSamples(r, limits, target, n);
  }

  /** Clean samples without estimates take the target to the maximum exactly when it starts at 13 or more, or there already. */
  lemma ReachesMaxIff(r: Rounding, limits: Limits, target: u32)
    requires Binary32(r) && limits.min <= limits.max && Fits(r, limits.max) && InRange(limits, target)
    ensures (exists n: nat :: Run(r, limits, target, CleanStream(n)) == limits.max) <==> (target >= 13 || target == limits.max)
  {
    if target >= 13 {
      var n := ReachedInTime(r, limits, target);
    } else if target == limits.max {
      StuckBelow(r, limits, target, 0);
    } else {
      forall n: nat ensures Run(r, limits, target, CleanStream(n)) == target {
        StuckBelow(r, limits, target, n);
      }
    }
  }

  function TierRank(t: QualityTier): nat {
    match t case Low => 0 case Medium => 1 case High => 2 case Ultra => 3
  }

  /** Higher targets never get a lower tier. */
  lemma TierMonotone(a: u32, b: u32)
    requires a <= b
    ensures TierRank(TierFor(a)) <= TierRank(TierFor(b))
  {
  }

  const TIER_STARTS: seq<u32> := [800_000, 2_500_000, 5_000_000]

  /** The tier goes up exactly at these bitrates. */
  lemma TierRisesIff(a: u32, b: u32)
    requires a <= b
    ensures TierRank(TierFor(a)) < TierRank(TierFor(b)) <==> exists i :: 0 <= i < 3 && a < TIER_STARTS[i] <= b
  {
    if TierRank(TierFor(a)) < TierRank(TierFor(b)) {
      var i := if a < 800_000 then 0 else if a < 2_500_000 then 1 else 2;
      assert a < TIER_STARTS[i] <= b;
    }
  }

  // ---------- the code ----------

  class AdaptiveBitrateController {
    const r: Rounding
    const limits: Limits
    var target: u32

    ghost predicate Valid()
      reads this
    {
      Binary32(r) && limits.min <= limits.max && InRange(limits, target)
    }

    constructor (r: Rounding, limits: Limits)
      requires Binary32(r) && limits.min <= limits.max
      ensures Valid() && this.r == r && this.limits == limits && target == Start(limits)
    {
      this.r := r;
      this.limits := limits;
      target := if limits.start < limits.min then limits.min else if limits.start > limits.max then limits.max else limits.start;
    }

    method Observe(s: Sample) returns (targetBps: u32, tier: QualityTier)
      requires Valid()
      modifies this`target
      ensures Valid() && target == Next(r, limits, old(target), s)
      ensures targetBps == target && tier == TierFor(target)
    {
      VerdictIs(r, target, s);
      if s.loss.Fraction? {
        var loss := if s.loss.value < 0.0 then 0.0 else if s.loss.value > 1.0 then 1.0 else s.loss.value;
        if loss >= r(0.10) {
          Lower(s, loss);
        } else if loss <= r(0.02) && s.rtt <= 400 {
          Raise(s);
        }
      }
      return target, TierFor(target);
    }

    /** Scale the decrease with the severity of the loss. */
    method Lower(s: Sample, loss: real)
      requires Valid() && Propose(r, target, s).verdict == Decrease && s.loss.Fraction? && loss == ClampUnit(s.loss.value)
      modifies this`target
      ensures Valid() && target == Next(r, limits, old(target), s)
    {
      var factor := LossFactor(s.loss.value, loss);
      LoweredBounds(r, target, factor);
      SetTarget(Scaled(r, target, factor));
    }

    method Raise(s: Sample)
      requires Valid() && Propose(r, target, s).verdict == Increase
      modifies this`target
      ensures Valid() && target == Next(r, limits, old(target), s)
    {
      var raised := Raised(r, target);
      var next := raised % 0x1_0000_0000;
      if s.estimated.Some? {
        var cap := if s.estimated.value < limits.min then limits.min else s.estimated.value;
        next := if next < cap then next else cap;
      }
      SetTarget(next);
    }

    /** The factor for a loss once it is clamped. */
    method LossFactor(ghost given: real, loss: real) returns (factor: real)
      requires Binary32(r) && loss == ClampUnit(given)
      ensures factor == Factor(r, given) && 0.5999 <= factor <= 0.8500001
    {
      Constants(r);
      var severity := ClampUnit(r(r(loss - r(0.10)) / r(1.0 - r(0.10))));
      factor := r(r(0.85) - r(0.25 * severity));
      FactorBounds(r, given);
    }

    method SetTarget(value: nat)
      requires limits.min <= limits.max
      modifies this`target
      ensures target == Clamp(value, limits.min, limits.max)
    {
      target := if value < limits.min then limits.min else if value > limits.max then limits.max else value;
    }
  }
}
