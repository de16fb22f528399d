/**
 * The slash fraction of the unresponsiveness offence,
 * `min(3 (k - 1) / n, 1) * 0.05`, in the fixed-point arithmetic of the
 * source: a `Perbill` (parts per billion) for the ratio, then a hand-made
 * scaling by 0.05 in `u64`.
 */
module SlashCurve {
  import opened Types

  /** Parts in one whole `Perbill`. */
  const Billion: nat := 1_000_000_000
  /** 5% in parts per billion. */
  const FivePercent: nat := 50_000_000

  /** A fraction in `[0, 1]`, counted in billionths. */
  type Perbill = x: nat | x <= 1_000_000_000

  // ---------------------------------------------------------------------------
  // Integer division facts (Dafny's `/` on naturals is floor division).

  lemma MulMonotone(d: nat, x: nat, y: nat)
    requires x <= y
    ensures d * x <= d * y
  {
    assert d * y == d * x + d * (y - x);
  }

  lemma DivUnique(a: nat, d: nat, q: nat, r: nat)
    requires d > 0 && a == d * q + r && r < d
    ensures a / d == q
  {
    var q', r' := a / d, a % d;
    assert a == d * q' + r';
    if q' > q {
      MulMonotone(d, q + 1, q');
      assert false;
    }
    if q' < q {
      MulMonotone(d, q' + 1, q);
      assert false;
    }
  }

  lemma DivMonotone(a: nat, b: nat, d: nat)
    requires d > 0 && a <= b
    ensures a / d <= b / d
  {
    if a / d > b / d {
      MulMonotone(d, b / d + 1, a / d);
      assert false;
    }
  }

  /** Common factors cancel under floor division. */
  lemma {:induction false} DivCancel(a: nat, b: nat, c: nat)
    requires b > 0 && c > 0
    ensures (a * c) / (b * c) == a / b
  {
    var q, r := a / b, a % b;
    assert a == b * q + r;
    assert a * c == (b * c) * q + r * c;
    assert r * c < b * c;
    DivUnique(a * c, b * c, q, r * c);
  }

  lemma QuotientsCompose(a: nat, b: nat, c: nat, q1: nat, r1: nat, q2: nat, r2: nat)
    requires b > 0 && c > 0 && r1 < b && r2 < c
    requires a == b * q1 + r1 && q1 == c * q2 + r2
    ensures a == (b * c) * q2 + (b * r2 + r1) && b * r2 + r1 < b * c
  {
    assert b * q1 == b * (c * q2) + b * r2;
    assert b * (c * q2) == (b * c) * q2;
    MulMonotone(b, r2, c - 1);
    assert b * (c - 1) == b * c - b;
  }

  /** Flooring twice is flooring once by the product. */
  lemma DivDiv(a: nat, b: nat, c: nat)
    requires b > 0 && c > 0
    ensures a / b / c == a / (b * c)
  {
    var q1, r1 := a / b, a % b;
    var q2, r2 := q1 / c, q1 % c;
    QuotientsCompose(a, b, c, q1, r1, q2, r2);
    DivUnique(a, b * c, q2, b * r2 + r1);
  }

  lemma {:induction false} ScaledRatioAtMost(p: nat, q: nat, k: nat)
    requires 0 < q && p <= q
    ensures p * k / q <= k
  {
    assert p * k <= q * k;
    DivMonotone(p * k, q * k, q);
    assert q * k / q == k by { DivUnique(q * k, q, k, 0); }
  }

  // ---------------------------------------------------------------------------
  // The curve.

  /** The denominator `Perbill::from_rational_approximation` divides by: never zero. */
  function Denominator(q: nat): (d: nat)
    ensures d >= 1 && (q >= 1 ==> d == q)
  {
    if q == 0 then 1 else q
  }

  /**
   * `Perbill::from_rational_approximation(p, q)`, which is not part of this
   * model, taken to be `p / q` capped at 1 and floored to billionths, with a
   * zero `q` read as 1.
   */
  function FromRationalApproximation(p: nat, q: nat): (x: Perbill)
    ensures p >= Denominator(q) ==> x == Billion
    ensures p == 0 ==> x == 0
  {
    var d := Denominator(q);
    var m := if p < d then p else d;
    ScaledRatioAtMost(m, d, Billion);
    assert m == d ==> m * Billion / d == Billion by {
      if m == d { DivUnique(d * Billion, d, Billion, 0); }
    }
    m * Billion / d
  }

  /**
   * `UnresponsivnessOffence::slash_fraction(offenders, validators_count)`.
   * `offenders - 1` is a `u32` subtraction (hence `offenders >= 1`), and
   * `3 * (offenders - 1)` is a `u32` product, written here with its
   * wrap-around. The scaling by 0.05 multiplies in `u64` before dividing.
   */
  function SlashFraction(offenders: u32, validatorsCount: u32): (parts: Perbill)
    requires offenders >= 1
    ensures parts <= FivePercent
  {
    var x := FromRationalApproximation(AsU32(3 * (offenders - 1)), validatorsCount);
    ScaledRatioAtMost(x, Billion, FivePercent);
    x * FivePercent / Billion
  }

  /** The `u64` product and the final `as u32` cast of `slash_fraction` never lose bits. */
  lemma SlashFractionNoOverflow(offenders: u32, validatorsCount: u32)
    requires offenders >= 1
    ensures FromRationalApproximation(AsU32(3 * (offenders - 1)), validatorsCount) * FivePercent < U64
    ensures SlashFraction(offenders, validatorsCount) < U32
  {
  }

  /**
   * The two truncation points of the source (to billionths, then after the
   * scaling) lose nothing against a single floor division: the result is
   * `floor(5% * min(3 (k - 1), n) / n)` exactly, as long as `3 (k - 1)` fits
   * in a `u32`.
   */
  lemma {:induction false} SlashFractionExact(offenders: u32, validatorsCount: u32)
    requires offenders >= 1 && 3 * (offenders - 1) < U32
    ensures var d := Denominator(validatorsCount);
            var m := if 3 * (offenders - 1) < d then 3 * (offenders - 1) else d;
            SlashFraction(offenders, validatorsCount) == m * FivePercent / d
  {
    var d := Denominator(validatorsCount);
    var p := 3 * (offenders - 1);
    var m := if p < d then p else d;
    var x := m * Billion / d;
    assert FromRationalApproximation(p, validatorsCount) == x;
    calc {
      SlashFraction(offenders, validatorsCount);
      x * FivePercent / Billion;
      { DivCancel(x, 20, FivePercent); assert 20 * FivePercent == Billion; }
      x / 20;
      { DivDiv(m * Billion, d, 20); }
      m * Billion / (d * 20);
      { assert m * Billion == (m * FivePercent) * 20; DivCancel(m * FivePercent, d, 20); }
      m * FivePercent / d;
    }
  }

  /** One offender alone is never slashed. */
  lemma SingleOffenderIsFree(validatorsCount: u32)
    ensures SlashFraction(1, validatorsCount) == 0
  {
  }

  /** Once `3 (k - 1)` reaches the validator count the fraction is the full 5%. */
  lemma {:induction false} SlashFractionSaturates(offenders: u32, validatorsCount: u32)
    requires offenders >= 1 && 3 * (offenders - 1) < U32
    requires 3 * (offenders - 1) >= Denominator(validatorsCount)
    ensures SlashFraction(offenders, validatorsCount) == FivePercent
  {
    var x := FromRationalApproximation(AsU32(3 * (offenders - 1)), validatorsCount);
    assert x == Billion;
    DivUnique(Billion * FivePercent, Billion, FivePercent, 0);
  }

  /** More offenders never lower the fraction (while `3 (k - 1)` fits in a `u32`). */
  lemma {:induction false} SlashFractionMonotone(k1: u32, k2: u32, validatorsCount: u32)
    requires 1 <= k1 <= k2 && 3 * (k2 - 1) < U32
    ensures SlashFraction(k1, validatorsCount) <= SlashFraction(k2, validatorsCount)
  {
    var d := Denominator(validatorsCount);
    SlashFractionExact(k1, validatorsCount);
    SlashFractionExact(k2, validatorsCount);
    var m1 := if 3 * (k1 - 1) < d then 3 * (k1 - 1) else d;
    var m2 := if 3 * (k2 - 1) < d then 3 * (k2 - 1) else d;
    assert m1 * FivePercent <= m2 * FivePercent;
    DivMonotone(m1 * FivePercent, m2 * FivePercent, d);
  }

  /** The values the source's unit test pins down. */
  lemma SlashFractionTestValues()
    ensures SlashFraction(1, 50) == 0
    ensures SlashFraction(3, 50) == 6_000_000
    ensures SlashFraction(17, 50) == 48_000_000
  {
    SlashFractionExact(3, 50);
    SlashFractionExact(17, 50);
  }
}
