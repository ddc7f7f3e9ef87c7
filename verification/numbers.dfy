/**
 * The numeric conventions of the engine, stated over exact reals.
 *
 * A JavaScript `number` is either NaN or a value; infinities and the
 * binary floating-point representation are not modelled.  The idiom
 * `parseFloat(x.toFixed(k))` becomes `Round2` / `Round4`: ECMAScript's
 * `toFixed` rounds the magnitude to the nearest multiple of 10^-k, picking the
 * larger magnitude on a tie, and puts the sign back.
 */
module Numbers {

  /** A JavaScript number as the engine sees it: NaN, or a (finite) value. */
  datatype Number = NaN | Num(value: real)

  /** `n || 0`: NaN (and 0) become 0. */
  function OrZero(n: Number): real
  {
    match n
    case NaN => 0.0
    case Num(v) => v
  }

  /** `Math.min` on two values. */
  function Min(a: real, b: real): (r: real)
    ensures r <= a && r <= b
    ensures r == a || r == b
  {
    if a <= b then a else b
  }

  /** `Math.max` on two values. */
  function Max(a: real, b: real): (r: real)
    ensures r >= a && r >= b
    ensures r == a || r == b
  {
    if a >= b then a else b
  }

  /** Rounds to the nearest integer; a tie goes away from zero. */
  function RoundHalfAway(y: real): (n: int)
    ensures y - 0.5 <= n as real <= y + 0.5
    ensures y >= 0.0 ==> n >= 0
    ensures y <= 0.0 ==> n <= 0
    ensures n as real == y + 0.5 ==> y > 0.0
    ensures n as real == y - 0.5 ==> y < 0.0
  {
    if y >= 0.0 then (y + 0.5).Floor else -((-y) + 0.5).Floor
  }

  /** An integer is its own rounding. */
  lemma RoundHalfAwayOfInteger(k: int)
    ensures RoundHalfAway(k as real) == k
  {
  }

  /** `parseFloat(x.toFixed(2))`: x to the nearest cent. */
  function Round2(x: real): (r: real)
    ensures IsCents(r)
    ensures x - 0.005 <= r <= x + 0.005
    ensures x >= 0.0 ==> r >= 0.0
    ensures x <= 0.0 ==> r <= 0.0
  {
    RoundHalfAway(x * 100.0) as real / 100.0
  }

  /** Rounding to cents never reverses the order of two amounts. */
  lemma Round2Monotone(x: real, y: real)
    requires x <= y
    ensures Round2(x) <= Round2(y)
  {
    assert x * 100.0 <= y * 100.0;
    assert RoundHalfAway(x * 100.0) <= RoundHalfAway(y * 100.0);
  }

  /** `parseFloat(x.toFixed(4))`: x to the nearest ten-thousandth. */
  function Round4(x: real): (r: real)
    ensures (r * 10000.0).Floor as real == r * 10000.0
    ensures x - 0.00005 <= r <= x + 0.00005
    ensures x >= 0.0 ==> r >= 0.0
    ensures x <= 0.0 ==> r <= 0.0
  {
    RoundHalfAway(x * 10000.0) as real / 10000.0
  }

  /** x is a whole number of cents. */
  predicate IsCents(x: real)
  {
    (x * 100.0).Floor as real == x * 100.0
  }

  /** Rounding to cents leaves an amount already in cents unchanged. */
  lemma Round2OfCents(x: real)
    requires IsCents(x)
    ensures Round2(x) == x
  {
    var k := (x * 100.0).Floor;
    RoundHalfAwayOfInteger(k);
  }

  /** Rounding to cents is idempotent. */
  lemma Round2Idempotent(x: real)
    ensures Round2(Round2(x)) == Round2(x)
  {
    Round2OfCents(Round2(x));
  }
}
