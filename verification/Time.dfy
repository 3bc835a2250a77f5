/** Deadlines: instants together with a greatest one that never comes. */
module Time {
  datatype Instant = At(time: nat) | Never {
    predicate AtMost(other: Instant) {
      other.Never? || (At? && time <= other.time)
    }

    predicate Before(other: Instant) {
      AtMost(other) && this != other
    }
  }
}
