/** Retry and client backoff delays (client.go, config.go), in nanoseconds. */
module Backoff {

  const SECOND: nat := 1_000_000_000
  const BASE_DELAY: nat := SECOND
  const RETRY_MAX_DELAY: nat := 8 * SECOND
  const RETRY_JITTER: nat := SECOND
  const GATE_MAX_DELAY: nat := 30 * SECOND
  const GATE_JITTER: nat := 5 * SECOND

  function Pow2(n: nat): nat
  {
    if n == 0 then 1 else 2 * Pow2(n - 1)
  }

  /** The delay before jitter: one second doubled per further attempt, capped. */
  function Capped(attempt: int, cap: nat): nat
  {
    var n := if attempt < 1 then 1 else attempt;
    var doubled := Pow2(n - 1) * SECOND;
    if doubled < cap then doubled else cap
  }

  lemma {:induction false} PowGrows(m: nat, n: nat)
    requires m <= n
    ensures Pow2(m) <= Pow2(n)
    decreases n
  {
    if m < n { PowGrows(m, n - 1); }
  }

  /** The shared doubling loop of both delay functions. */
  method DoublingDelay(attempt: int, cap: nat) returns (delay: nat)
    requires cap > BASE_DELAY
    ensures delay == Capped(attempt, cap)
  {
    var attempts := if attempt < 1 then 1 else attempt;
    delay := BASE_DELAY;
    var step := 1;
    while step < attempts && delay < cap
      invariant 1 <= step <= attempts
      invariant delay == Pow2(step - 1) * SECOND && delay < cap
    {
      delay := delay * 2;
      if delay >= cap {
        PowGrows(step, attempts - 1);
        delay := cap;
        break;
      }
      step := step + 1;
    }
  }

  method RetryDelay(attempt: int, reading: nat) returns (delay: nat)
    ensures delay == Capped(attempt, RETRY_MAX_DELAY) + reading % RETRY_JITTER
  {
    delay := DoublingDelay(attempt, RETRY_MAX_DELAY);
    delay := delay + reading % RETRY_JITTER;
  }

  method ClientBackoffDelay(attempt: int, reading: nat) returns (delay: nat)
    ensures delay == Capped(attempt, GATE_MAX_DELAY) + reading % GATE_JITTER
  {
    delay := DoublingDelay(attempt, GATE_MAX_DELAY);
    delay := delay + reading % GATE_JITTER;
  }

  lemma FirstPowers()
    ensures Pow2(0) == 1 && Pow2(1) == 2 && Pow2(2) == 4 && Pow2(3) == 8 && Pow2(4) == 16 && Pow2(5) == 32
  {
    assert Pow2(3) == 2 * Pow2(2);
    assert Pow2(4) == 2 * Pow2(3);
    assert Pow2(5) == 2 * Pow2(4);
  }

  /** Both schedules, without jitter: 1, 2, 4 and 8 seconds, and 8 for good on retries;
      1, 2, 4, 8, 16 and then 30 on the gate. */
  lemma Schedules(n: int)
    ensures Capped(n, RETRY_MAX_DELAY)
         == (if n <= 1 then 1 else if n == 2 then 2 else if n == 3 then 4 else 8) * 1_000_000_000
    ensures Capped(n, GATE_MAX_DELAY)
         == (if n <= 1 then 1 else if n == 2 then 2 else if n == 3 then 4 else if n == 4 then 8
             else if n == 5 then 16 else 30) * 1_000_000_000
  {
    FirstPowers();
    if n > 6 { PowGrows(5, n - 1); }
  }

  /** Delays never shrink with the attempt number and stay within 9 and 35 seconds. */
  lemma DelayBounds(a: int, b: int, reading: nat)
    requires a <= b
    ensures Capped(a, RETRY_MAX_DELAY) <= Capped(b, RETRY_MAX_DELAY)
    ensures Capped(a, GATE_MAX_DELAY) <= Capped(b, GATE_MAX_DELAY)
    ensures SECOND <= Capped(a, RETRY_MAX_DELAY) + reading % RETRY_JITTER < 9 * SECOND
    ensures SECOND <= Capped(a, GATE_MAX_DELAY) + reading % GATE_JITTER < 35 * SECOND
  {
    var m, n := if a < 1 then 1 else a, if b < 1 then 1 else b;
    PowGrows(m - 1, n - 1);
    PowGrows(0, m - 1);
  }

  /** Least total wait over the first n gates. */
  function GateTotal(n: nat): nat
  {
    if n == 0 then 0 else GateTotal(n - 1) + Capped(n, GATE_MAX_DELAY)
  }

  /** 1 + 2 + 4 + 8 + 16 seconds, then 30 for each further gate. */
  lemma {:induction false} GateTotalClosed(n: nat)
    requires n >= 5
    ensures GateTotal(n) == 31 * SECOND + 30 * SECOND * (n - 5)
  {
    FirstPowers();
    if n == 5 {
      assert GateTotal(0) == 0;
      assert GateTotal(1) == SECOND;
      assert GateTotal(2) == 3 * SECOND;
      assert GateTotal(3) == 7 * SECOND;
      assert GateTotal(4) == 15 * SECOND;
    } else {
      GateTotalClosed(n - 1);
      PowGrows(5, n - 1);
    }
  }
}
