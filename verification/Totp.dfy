/** Time-based one-time passwords (section 4 of RFC 6238). */
module Totp {
  const PERIOD := 30
  const WINDOW := 1

  /** Go's integer division truncates toward zero. */
  function Quotient(seconds: int): int {
    if seconds >= 0 then seconds / PERIOD else -(-seconds / PERIOD)
  }

  /** The steps whose codes are tried at a Unix time. */
  predicate InWindow(step: int, seconds: int) {
    step >= 0 && Quotient(seconds) - WINDOW <= step <= Quotient(seconds) + WINDOW
  }
}
