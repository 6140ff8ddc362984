/** The control cadence of the node: a 32-bit millisecond clock and the
    "at least one interval since the last firing" test that gates every
    control step. */
module Timing {

  /** `millis()` returns an `unsigned long`, which is 32 bits wide on the
      ESP32, so the clock wraps to 0 about every 49.7 days. */
  const Modulus: int := 0x1_0000_0000

  /** A value of the millisecond clock, or of an unsigned difference of two. */
  type Millis = x: int | 0 <= x < Modulus

  /** The control period in milliseconds. */
  const Interval: int := 1000

  /** `currentMillis - previousMillis` computed in 32-bit unsigned
      arithmetic, i.e. modulo 2^32: the plain difference while the clock has
      not wrapped since `since`, and the difference plus 2^32 once it has. */
  function Elapsed(now: Millis, since: Millis): (d: Millis)
    ensures now >= since ==> d == now - since
    ensures now < since ==> d == now - since + Modulus
  {
    (now - since) % Modulus
  }

  /** A control step is due when a full interval has passed since `since`. */
  predicate Due(now: Millis, since: Millis)
  {
    Elapsed(now, since) >= Interval
  }

  /** The value `millis()` reports at `t` milliseconds after boot. */
  function Wrap(t: nat): Millis
  {
    t % Modulus
  }

  /** The unsigned difference of two clock readings is the true time between
      them, even when the clock wrapped in between, as long as they are less
      than one wrap period apart. */
  lemma ElapsedAcrossRollover(t0: nat, t1: nat)
    requires t0 <= t1 < t0 + Modulus
    ensures Elapsed(Wrap(t1), Wrap(t0)) == t1 - t0
  {
  }

  /** Hence the due test compares true elapsed time with the interval, across
      a rollover too. */
  lemma DueAcrossRollover(t0: nat, t1: nat)
    requires t0 <= t1 < t0 + Modulus
    ensures Due(Wrap(t1), Wrap(t0)) <==> t1 - t0 >= Interval
  {
    ElapsedAcrossRollover(t0, t1);
  }

  /** A call `d` milliseconds after a firing at `since` (wrapping or not)
      is due exactly when `d` reaches the interval. */
  lemma DueAfter(since: Millis, d: nat)
    requires d < Modulus
    ensures Due((since + d) % Modulus, since) <==> d >= Interval
  {
  }
}
