/**
 * Money as integer cents, and the one rounding policy of the system: to the
 * nearest unit, a tie going away from zero (HALF_UP). Amounts that callers
 * supply are exact decimals, modelled as `real`.
 */
module Money {

  /** Rounds to the nearest integer, a tie going away from zero. */
  function HalfUp(x: real): int
  {
    if x >= 0.0 then (x + 0.5).Floor else -((0.5 - x).Floor)
  }

  /** Exact conversion of a decimal amount to cents. */
  function ToCents(amount: real): int
  {
    HalfUp(amount * 100.0)
  }

  /** `pct` percent of an amount of cents, rounded to the cent. */
  function PercentOf(cents: real, pct: real): int
  {
    HalfUp(cents * pct / 100.0)
  }

  /** The rounded value is the only integer in the half-open half-unit around `x`. */
  lemma HalfUpCharacterised(x: real, n: int)
    ensures x >= 0.0 ==> (n == HalfUp(x) <==> x - 0.5 < n as real <= x + 0.5)
    ensures x < 0.0 ==> (n == HalfUp(x) <==> x - 0.5 <= n as real < x + 0.5)
  {
    if x >= 0.0 {
      var f := (x + 0.5).Floor;
      assert f as real <= x + 0.5 < f as real + 1.0;
    } else {
      var f := (0.5 - x).Floor;
      assert f as real <= 0.5 - x < f as real + 1.0;
    }
  }

  lemma HalfUpMonotone(x: real, y: real)
    requires x <= y
    ensures HalfUp(x) <= HalfUp(y)
  {
    HalfUpCharacterised(x, HalfUp(x));
    HalfUpCharacterised(y, HalfUp(y));
  }

  lemma HalfUpExact(n: int)
    ensures HalfUp(n as real) == n
  {
    HalfUpCharacterised(n as real, n);
  }

  /**
   * A share of 0 to 100 percent is within half a cent of the exact share and
   * between nothing and the whole.
   */
  lemma PercentBounds(cents: real, pct: real)
    requires cents >= 0.0 && 0.0 <= pct <= 100.0
    ensures 0 <= PercentOf(cents, pct) <= HalfUp(cents)
    ensures var exact := cents * pct / 100.0; exact - 0.5 < PercentOf(cents, pct) as real <= exact + 0.5
  {
    var exact := cents * pct / 100.0;
    assert cents * pct >= 0.0 && cents * (100.0 - pct) >= 0.0;
    assert 0.0 <= exact <= cents;
    HalfUpCharacterised(exact, HalfUp(exact));
    HalfUpMonotone(0.0, exact);
    HalfUpMonotone(exact, cents);
    HalfUpExact(0);
  }

  /** Half-way between two integers. */
  predicate IsTie(x: real) {
    (x + 0.5).Floor as real == x + 0.5
  }

  lemma FloorIs(x: real, n: int)
    requires n as real <= x < n as real + 1.0
    ensures x.Floor == n
  {
  }

  /** Below zero a tie goes down, above it goes up. */
  lemma HalfUpByFloor(x: real)
    ensures HalfUp(x) == (x + 0.5).Floor - if x < 0.0 && IsTie(x) then 1 else 0
  {
    var f := (x + 0.5).Floor;
    if IsTie(x) { FloorIs(0.5 - x, 1 - f); } else { FloorIs(0.5 - x, -f); }
  }

  /**
   * Subtracting whole units before or after rounding is the same, except when a
   * tie changes sign: half-up rounds it away from zero on either side.
   */
  lemma ShiftIff(x: real, k: int)
    ensures HalfUp(x - k as real) == HalfUp(x) - k <==> !(IsTie(x) && (x >= 0.0) != (x - k as real >= 0.0))
  {
    var f := (x + 0.5).Floor;
    FloorIs(x - k as real + 0.5, f - k);
    HalfUpByFloor(x);
    HalfUpByFloor(x - k as real);
    hide HalfUp;
  }
}
