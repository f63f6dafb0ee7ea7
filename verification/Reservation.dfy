/** The answer of both limiters' Reserve, internal/ratelimit/ratelimit.go. */
module Reservations {

  /** `ok` is always true in the source; a delayed reservation takes nothing. */
  datatype Reservation = Reservation(ok: bool, delay: int, timeToAct: int)
}
