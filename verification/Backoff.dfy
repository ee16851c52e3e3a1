/** Go's int64 and the capped doubling delays of the reconnect loop (pkg/systemd/systemd.go) and the
    journal reader (pkg/systemd/journal.go), in nanoseconds. */
module Backoff {
  const MIN_INT64 := -0x8000_0000_0000_0000
  const MAX_INT64 := 0x7FFF_FFFF_FFFF_FFFF

  // Two's complement wrap-around.
  function Int64(x: int): (r: int)
    ensures MIN_INT64 <= r <= MAX_INT64
    ensures MIN_INT64 <= x <= MAX_INT64 ==> r == x
  {
    (x - MIN_INT64) % 0x1_0000_0000_0000_0000 + MIN_INT64
  }

  const RECONNECT_INTERVAL := 10_000_000_000
  const RECONNECT_BACKOFF_MAX := 300_000_000_000
  const JOURNAL_BACKOFF_MIN := 500_000_000
  const JOURNAL_BACKOFF_MAX := 5_000_000_000

  function Min(a: int, b: int): int {
    if a < b then a else b
  }

  function Pow2(k: nat): nat {
    if k == 0 then 1 else 2 * Pow2(k - 1)
  }

  // min(delay*2, max), multiplied in int64.
  function Doubled(delay: int, max: int): int {
    Min(Int64(delay * 2), max)
  }

  // The delay after k failures in a row.
  function Delay(base: int, max: int, k: nat): int {
    if k == 0 then base else Doubled(Delay(base, max, k - 1), max)
  }

  // Bounds under which doubling cannot overflow; both loops' constants satisfy them.
  predicate Sane(base: int, max: int) {
    0 < base <= max && 2 * max <= MAX_INT64
  }

  lemma BothLoopsAreSane()
    ensures Sane(RECONNECT_INTERVAL, RECONNECT_BACKOFF_MAX) && Sane(JOURNAL_BACKOFF_MIN, JOURNAL_BACKOFF_MAX)
  {
  }

  lemma DoublingIsExact(delay: int, max: int)
    requires 0 < delay <= max && 2 * max <= MAX_INT64
    ensures Doubled(delay, max) == Min(2 * delay, max)
  {
  }

  /** After k failures in a row the delay is base doubled k times, capped; the int64 doubling never wraps,
      and the delay stays within its bounds and only grows until it is reset. */
  lemma {:induction false} DelayIsCappedDoubling(base: int, max: int, k: nat)
    requires Sane(base, max)
    ensures Delay(base, max, k) == Min(base * Pow2(k), max)
    ensures base <= Delay(base, max, k) <= max
    ensures 2 * Delay(base, max, k) <= MAX_INT64
    ensures Delay(base, max, k) <= Delay(base, max, k + 1)
  {
    hide Doubled;
    if k != 0 {
      DelayIsCappedDoubling(base, max, k - 1);
      DoublingIsExact(Delay(base, max, k - 1), max);
      assert base * Pow2(k) == 2 * (base * Pow2(k - 1));
    }
    DoublingIsExact(Delay(base, max, k), max);
  }

  /** The delays in nanoseconds: 10, 20, 40, 80, 160 and then 300 s between reconnects; 0.5, 1, 2, 4 and then 5 s
      between advances of a journal. */
  lemma TheDelays(k: nat)
    ensures var d := Delay(RECONNECT_INTERVAL, RECONNECT_BACKOFF_MAX, k);
            d == if k < 5 then [10_000_000_000, 20_000_000_000, 40_000_000_000, 80_000_000_000, 160_000_000_000][k]
              else 300_000_000_000
    ensures var d := Delay(JOURNAL_BACKOFF_MIN, JOURNAL_BACKOFF_MAX, k);
            d == if k < 4 then [500_000_000, 1_000_000_000, 2_000_000_000, 4_000_000_000][k] else 5_000_000_000
  {
    if k > 0 {
      TheDelays(k - 1);
    }
  }

  // How many failures in a row an outcome history ends with.
  function Streak(outcomes: seq<bool>): (k: nat)
    ensures k <= |outcomes|
    ensures forall i | |outcomes| - k <= i < |outcomes| :: !outcomes[i]
    ensures k < |outcomes| ==> outcomes[|outcomes| - k - 1]
  {
    if outcomes == [] || outcomes[|outcomes| - 1] then 0 else 1 + Streak(outcomes[..|outcomes| - 1])
  }
}
