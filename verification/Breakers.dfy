/** One tool's circuit breaker: how a check and a recorded outcome move it. */
module Breakers {
  datatype Breaker = Breaker(failures: nat, open: bool, openedAt: real)

  const CLOSED: Breaker := Breaker(0, false, 0.0)

  /** An open circuit refuses until `reset` seconds have passed since it opened. */
  predicate Refuses(b: Breaker, now: real, reset: real) {
    b.open && now - b.openedAt < reset
  }

  /** After that a check closes it again and clears the count. */
  predicate Resets(b: Breaker, now: real, reset: real) {
    b.open && now - b.openedAt >= reset
  }

  function AfterProbe(b: Breaker, now: real, reset: real): Breaker {
    if Resets(b, now, reset) then b.(open := false, failures := 0) else b
  }

  predicate Opens(b: Breaker, success: bool, threshold: int) {
    !success && b.failures + 1 >= threshold && !b.open
  }

  function AfterRecord(b: Breaker, success: bool, now: real, threshold: int): Breaker {
    if success then b.(open := false, failures := 0)
    else if Opens(b, success, threshold) then Breaker(b.failures + 1, true, now)
    else b.(failures := b.failures + 1)
  }
}
