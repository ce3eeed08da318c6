/** The range reduction and the quotient under `exp`, over the reals: how far from zero a reduced argument can
    be, and that the quotient is defined. */
module Exp {
  const P0 := 0.00012617719307481058
  const P1 := 0.030299440770744195
  const P2 := 1.0
  const Q0 := 0.0000030019850513866446
  const Q1 := 0.002524483403496841
  const Q2 := 0.22726554820815503
  const Q3 := 2.0
  const LN2_HI := 0.693145751953125
  const LN2_LO := 0.0000014286068203094173
  const LOG2_E := 1.4426950408889634
  const MIN := -708.0
  const MAX := 709.0

  function Clamped(x: real): real { if x > MAX then MAX else if x < MIN then MIN else x }

  /** How many times ln 2 goes into the argument, and what is left of it. */
  function Whole(x: real): int { (Clamped(x) * LOG2_E + 0.5).Floor }

  function Reduced(x: real): real { Clamped(x) - Whole(x) as real * LN2_HI - Whole(x) as real * LN2_LO }

  function EvenP(r2: real): real { (P0 * r2 + P1) * r2 + P2 }

  function P(r: real): real { EvenP(r * r) * r }

  function Q(r: real): real { ((Q0 * (r * r) + Q1) * (r * r) + Q2) * (r * r) + Q3 }

  /** An argument `exp` takes the quotient of. */
  predicate Small(r: real) { -0.347 < r < 0.347 }

  /** What is left is small, and the power of two normal. */
  lemma ReducesToSmall(x: real)
    ensures -1022 <= Whole(x) <= 1023 && Small(Reduced(x))
  {
  }

  /** The argument taken apart is the argument, clamped: so many times ln 2, in its two parts, and the rest. */
  lemma PartsAddUp(x: real)
    ensures Reduced(x) + Whole(x) as real * (LN2_HI + LN2_LO)
            == if x > 709.0 then 709.0 else if x < -708.0 then -708.0 else x
  {
  }

  lemma Product(a: real, b: real, m: real)
    requires 0.0 <= a <= m && 0.0 <= b
    ensures 0.0 <= a * b <= m * b
  {
  }

  lemma EvenPIsNearOne(r2: real)
    requires 0.0 <= r2 <= 0.1205
    ensures 1.0 <= EvenP(r2) <= 1.01
  {
    var inner := P0 * r2 + P1;
    assert 0.0 <= inner <= 0.031;
    Product(inner, r2, 0.031);
    assert EvenP(r2) == inner * r2 + 1.0;
  }

  lemma QIsAtLeastTwo(r: real)
    ensures 2.0 <= Q(r)
  {
    var r2 := r * r;
    assert r2 >= 0.0;
    Product(r2, Q0 * r2 + Q1, r2);
    Product(r2, (Q0 * r2 + Q1) * r2 + Q2, r2);
  }

  lemma PIsSmall(r: real)
    requires Small(r)
    ensures -0.36 < P(r) < 0.36
  {
    var size := if r < 0.0 then -r else r;
    assert r * r == size * size;
    Product(size, size, 0.347);
    EvenPIsNearOne(r * r);
    Product(EvenP(r * r), size, 1.01);
    assert P(r) == EvenP(r * r) * size || P(r) == -(EvenP(r * r) * size);
  }

  /** The quotient's denominator is far from zero. */
  lemma QuotientIsDefined(r: real)
    requires Small(r)
    ensures Q(r) - P(r) > 1.6 && Q(r) + P(r) > 1.6
  {
    PIsSmall(r);
    QIsAtLeastTwo(r);
  }

  /** Whatever the argument, `exp` raises two to a power its `pow2i` takes, and divides by what is not zero. */
  lemma ExpIsDefined(x: real)
    ensures -1022 <= Whole(x) <= 1023 && Small(Reduced(x)) && Q(Reduced(x)) - P(Reduced(x)) > 0.0
  {
    ReducesToSmall(x);
    QuotientIsDefined(Reduced(x));
  }
}
