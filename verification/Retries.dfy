/** Bounded retries with exponential waits, as both delivery queues use them. */
module Retries {

  type Tries = n: nat | n >= 1 witness 1

  /** Attempts left before giving up; a claim past the last is still one claim. */
  function Left(maxTries: nat, attempts: nat): nat {
    if maxTries > attempts then maxTries - attempts else 1
  }

  function Doubled(n: nat, times: nat): nat {
    if times == 0 then n else 2 * Doubled(n, times - 1)
  }

  function Smaller(a: nat, b: nat): nat {
    if a <= b then a else b
  }

  /** The wait after an attempt: doubled for each attempt before, up to the maximum. */
  function Wait(initial: nat, maximum: nat, attempts: Tries): nat {
    Smaller(Doubled(initial, attempts - 1), maximum)
  }

  lemma {:induction false} DoublingIsMonotone(n: nat, times: nat)
    ensures Doubled(n, times) >= n
  {
    if times > 0 {
      DoublingIsMonotone(n, times - 1);
    }
  }

  /** Each wait is twice the one before, up to the maximum, and never shorter. */
  lemma WaitsDouble(initial: nat, maximum: nat, attempts: Tries)
    requires initial <= maximum
    ensures Wait(initial, maximum, 1) == initial
    ensures Wait(initial, maximum, attempts + 1) == Smaller(2 * Wait(initial, maximum, attempts), maximum)
    ensures initial <= Wait(initial, maximum, attempts) <= Wait(initial, maximum, attempts + 1) <= maximum
  {
    DoublingIsMonotone(initial, attempts - 1);
    DoublingIsMonotone(initial, attempts);
    assert Doubled(initial, attempts) == 2 * Doubled(initial, attempts - 1);
  }
}
