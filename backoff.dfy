/**
 * Reconnection back-off of the live-stream client: after a close the client
 * waits min(30000, round(1000 * 2^min(retry, 6) + random * 500)) ms and then
 * connects again with retry + 1.  `Math.random() * 500` lies in [0, 500), so
 * after rounding the jitter is an integer in [0, 500]; it is a parameter here.
 */
module Backoff {
  const BaseDelay: nat := 1000
  const MaxDelay: nat := 30000
  const MaxExponent: nat := 6
  const MaxJitter: nat := 500

  function Pow2(n: nat): (r: nat)
    ensures r >= 1
  {
    if n == 0 then 1 else 2 * Pow2(n - 1)
  }

  function Min(a: int, b: int): int
  {
    if a <= b then a else b
  }

  /** The exponential part of the delay, before jitter and before the cap. */
  function Unjittered(retry: nat): (u: nat)
    ensures BaseDelay <= u <= 64 * BaseDelay
  {
    BaseDelay * Pow2(Min(retry, MaxExponent))
  }

  /** The delay before `connect(retry + 1)` is attempted. */
  function ReconnectDelay(retry: nat, jitter: nat): (d: nat)
    requires jitter <= MaxJitter
    ensures BaseDelay <= d <= MaxDelay
    ensures d <= Unjittered(retry) + jitter
    ensures d == MaxDelay || d == Unjittered(retry) + jitter
  {
    Min(MaxDelay, Unjittered(retry) + jitter)
  }

  lemma {:induction false} Pow2Monotone(m: nat, n: nat)
    requires m <= n
    ensures Pow2(m) <= Pow2(n)
  {
    if m < n {
      Pow2Monotone(m, n - 1);
    }
  }

  /** Up to the fifth retry the cap is never reached: the delay is exactly base * 2^retry + jitter. */
  lemma DelayUncapped(retry: nat, jitter: nat)
    requires retry <= 4 && jitter <= MaxJitter
    ensures ReconnectDelay(retry, jitter) == BaseDelay * Pow2(retry) + jitter
  {
    Pow2Monotone(retry, 4);
    assert Pow2(4) == 16;
  }

  /** From the fifth retry on the unjittered value (32 s or 64 s) exceeds the cap: the delay is 30 s. */
  lemma DelaySaturates(retry: nat, jitter: nat)
    requires retry >= 5 && jitter <= MaxJitter
    ensures ReconnectDelay(retry, jitter) == MaxDelay
  {
    Pow2Monotone(5, Min(retry, MaxExponent));
    assert Pow2(5) == 32;
  }

  /** With the same jitter, a later retry never waits less. */
  lemma DelayMonotone(r1: nat, r2: nat, jitter: nat)
    requires r1 <= r2 && jitter <= MaxJitter
    ensures ReconnectDelay(r1, jitter) <= ReconnectDelay(r2, jitter)
  {
    Pow2Monotone(Min(r1, MaxExponent), Min(r2, MaxExponent));
  }

  /** A close with retry = 3 reconnects after 8000 ms plus the jitter, i.e. within [8000, 8500]. */
  lemma DelayAtThirdRetry(jitter: nat)
    requires jitter <= MaxJitter
    ensures 8000 <= ReconnectDelay(3, jitter) <= 8500
    ensures ReconnectDelay(3, jitter) == 8000 + jitter
  {
    DelayUncapped(3, jitter);
    assert Pow2(3) == 8;
  }
}
