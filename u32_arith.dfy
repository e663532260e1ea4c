/** Unsigned 32-bit machine arithmetic as the effect engine uses it: the duty
    type, Rust's saturating increment and decrement, and the conversion of a
    millisecond delay into a busy-wait cycle count. */
module U32Arith {

  const U32_MAX: nat := 0xFFFF_FFFF

  /** The `u32` type: every duty value and every effect parameter has it. */
  type U32 = x: nat | x <= U32_MAX

  /** `u32::saturating_add`: clamps at `u32::MAX` instead of wrapping. */
  function SaturatingAdd(x: U32, y: U32): (r: U32)
    ensures x <= r && y <= r && r <= x + y
    ensures r == x + y || r == U32_MAX
  {
    if x + y <= U32_MAX then x + y else U32_MAX
  }

  /** `u32::saturating_sub`: clamps at 0 instead of wrapping. */
  function SaturatingSub(x: U32, y: U32): (r: U32)
    ensures r <= x && x <= r + y
    ensures r + y == x || r == 0
  {
    if x >= y then x - y else 0
  }

  /** Busy-wait calibration of a 48 MHz core: cycles per millisecond. */
  function ClockCyclesPerMs(): (c: nat)
    ensures 0 < c <= U32_MAX
  {
    48_000
  }

  /** The largest delay whose cycle count still fits a `u32`. */
  const MAX_DELAY_MS: nat := 89_478

  /** `delay_ms(ms)` multiplies in `u32`: the product must not overflow. */
  predicate DelayFits(ms: nat)
  {
    ms * ClockCyclesPerMs() <= U32_MAX
  }

  /** The cycle count `delay_ms` hands to the busy-wait primitive: an exact
      whole number of milliseconds, with nothing lost to truncation. */
  function DelayCycles(ms: U32): (cycles: U32)
    requires DelayFits(ms)
    ensures cycles % ClockCyclesPerMs() == 0
    ensures cycles / ClockCyclesPerMs() == ms
  {
    ms * ClockCyclesPerMs()
  }

  /** A delay fits exactly when it is at most `MAX_DELAY_MS` milliseconds. */
  lemma DelayFitsBound(ms: nat)
    ensures DelayFits(ms) <==> ms <= MAX_DELAY_MS
  {
  }

  /** `u32` division where the divisor is a variable, written as repeated
      subtraction. Its value is that of `/` (`QuotientIsDiv`). The recursive
      form keeps division by a variable out of the solver's nonlinear
      arithmetic, which otherwise exhausts the resource limit in every proof
      that mentions the effects' delays. */
  function Quotient(a: nat, b: nat): (q: nat)
    requires b > 0
    ensures q <= a
    decreases a
  {
    if a < b then 0 else 1 + Quotient(a - b, b)
  }

  /** `Quotient` is Euclidean division of naturals. */
  lemma {:induction false} QuotientIsDiv(a: nat, b: nat)
    requires b > 0
    ensures Quotient(a, b) == a / b
    decreases a
  {
    if a < b {
      DivModUnique(a, b, 0, a);
    } else {
      QuotientIsDiv(a - b, b);
      var q, r := (a - b) / b, (a - b) % b;
      assert a == (q + 1) * b + r;
      DivModUnique(a, b, q + 1, r);
    }
  }

  lemma ProductIsNat(x: nat, y: nat)
    ensures x * y >= 0
  {
  }

  lemma MulMonotone(a: nat, b: nat, c: nat)
    ensures a <= b ==> a * c <= b * c
  {
    if a <= b {
      ProductIsNat(b - a, c);
      assert b * c == a * c + (b - a) * c;
    }
  }

  /** Quotient and remainder are unique: any `q * d + r` with `r < d` has
      remainder `r` and quotient `q`. */
  lemma DivModUnique(a: nat, d: nat, q: nat, r: nat)
    requires d > 0 && r < d && a == q * d + r
    ensures a / d == q && a % d == r
  {
    var q', r' := a / d, a % d;
    assert a == q' * d + r';
    assert (q' + 1) * d == q' * d + d;
    assert (q + 1) * d == q * d + d;
    MulMonotone(q' + 1, q, d);
    MulMonotone(q + 1, q', d);
  }

  /** Fitting is downward closed. */
  lemma DelayFitsBelow(small: nat, large: nat)
    requires small <= large && DelayFits(large)
    ensures DelayFits(small)
  {
  }
}
