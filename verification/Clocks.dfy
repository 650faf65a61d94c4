/** A steady clock: it never runs backwards. */
module Clocks {
  class Clock {
    var time: real

    constructor (time: real)
      ensures this.time == time
    {
      this.time := time;
    }

    method Now() returns (now: real)
      modifies this
      ensures now == time >= old(time)
    {
      var elapsed: real :| elapsed >= 0.0;
      time := time + elapsed;
      now := time;
    }
  }
}
