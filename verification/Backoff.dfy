/** Retry delays: exponential with full jitter, at most one hour. */
module Backoff {

  const BASE_MS := 60_000
  const MAX_MS := 3_600_000
  const TWO_64 := 0x1_0000_0000_0000_0000

  function Pow2(n: nat): nat {
    if n == 0 then 1 else 2 * Pow2(n - 1)
  }

  function Min(a: int, b: int): int {
    if a <= b then a else b
  }

  /** `x << n` on a 64-bit word: high bits fall off. */
  function ShiftLeft(x: nat, n: nat): nat {
    x * Pow2(n) % TWO_64
  }

  function CeilingMs(attempts: nat): nat {
    Min(ShiftLeft(BASE_MS, Min(attempts, 6)), MAX_MS)
  }

  /** The delay for a 64-bit random draw. */
  function BackoffDelay(attempts: nat, draw: nat): nat {
    draw % (CeilingMs(attempts) + 1)
  }

  lemma NoShiftOverflow(attempts: nat)
    ensures ShiftLeft(BASE_MS, Min(attempts, 6)) == 60_000 * Pow2(Min(attempts, 6)) < 0x1_0000_0000_0000_0000
  {
  }

  lemma Remainder(x: nat, c: nat)
    ensures x % (c + 1) <= c
    ensures x <= c ==> x % (c + 1) == x
  {
  }

  lemma CeilingIsTheExponential(attempts: nat)
    ensures CeilingMs(attempts) == Min(BASE_MS * Pow2(attempts), MAX_MS)
  {
  }

  /** The clamp at six changes nothing: the delay is drawn from 0 up to the smaller
      of one minute times 2^attempts and one hour, no value in between is out of
      reach, and no bit of the ceiling is lost. */
  lemma DelayRange(attempts: nat, draw: nat)
    ensures BackoffDelay(attempts, draw) <= 60_000 * Pow2(attempts) && BackoffDelay(attempts, draw) <= 3_600_000
    ensures draw <= 60_000 * Pow2(attempts) && draw <= 3_600_000 ==> BackoffDelay(attempts, draw) == draw
  {
    CeilingIsTheExponential(attempts);
    Remainder(draw, CeilingMs(attempts));
  }

  /** The ceilings minute by minute: each is reached by some draw and never passed. */
  lemma DelayCeilings(attempts: nat, draw: nat)
    ensures var ceiling := if attempts >= 6 then 3_600_000
                           else [60_000, 120_000, 240_000, 480_000, 960_000, 1_920_000][attempts];
            BackoffDelay(attempts, draw) <= ceiling && (draw <= ceiling ==> BackoffDelay(attempts, draw) == draw)
  {
    assert Pow2(0) == 1 && Pow2(1) == 2 && Pow2(2) == 4 && Pow2(3) == 8 && Pow2(4) == 16 && Pow2(5) == 32
           && Pow2(6) == 64;
    Remainder(draw, CeilingMs(attempts));
  }
}
