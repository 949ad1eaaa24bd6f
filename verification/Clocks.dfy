/** The injected clock. A run fixes what every reading returns; only the order of
    readings is constrained, so time may pass between any two of them. */
module Clocks {

  /** Microseconds, the resolution of the source's timestamps. */
  type Time = int

  const SECOND: Time := 1_000_000

  type Readings = nat -> Time

  /** The clock never goes back. */
  ghost predicate Monotone(clock: Readings) {
    forall i: nat, j: nat | i <= j :: clock(i) <= clock(j)
  }

  /** The clock object handed to every component: each call consumes one reading. */
  class Clock {
    const readings: Readings
    var next: nat

    constructor (readings: Readings)
      ensures this.readings == readings && next == 0
    {
      this.readings := readings;
      next := 0;
    }

    method Now() returns (t: Time)
      modifies this
      ensures t == readings(old(next)) && next == old(next) + 1
    {
      t := readings(next);
      next := next + 1;
    }
  }
}
