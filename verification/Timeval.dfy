/** Points in time as the event queue handles them: `struct timeval`, `timercmp`,
    `add_msec` and the truncated microsecond difference a worker sleeps on. */
module Timeval {

  datatype Timeval = Timeval(sec: int, usec: int) {
    predicate Normal() {
      0 <= usec < 1_000_000
    }

    function Micros(): int {
      sec * 1_000_000 + usec
    }
  }

  /** timercmp(a, b, >) */
  predicate Later(a: Timeval, b: Timeval) {
    if a.sec == b.sec then a.usec > b.usec else a.sec > b.sec
  }

  /** On normalised times the field-wise comparison is the comparison of the instants. */
  lemma LaterIsMicros(a: Timeval, b: Timeval)
    requires a.Normal() && b.Normal()
    ensures Later(a, b) <==> a.Micros() > b.Micros()
  {
    if a.sec > b.sec {
      assert a.sec * 1_000_000 >= (b.sec + 1) * 1_000_000;
    } else if a.sec < b.sec {
      assert b.sec * 1_000_000 >= (a.sec + 1) * 1_000_000;
    }
  }

  /** C's `/` and `%` on `int`: truncation toward zero. */
  function CDiv(x: int, y: int): int
    requires y > 0
  {
    if x >= 0 then x / y else -((-x) / y)
  }

  function CRem(x: int, y: int): int
    requires y > 0
  {
    x - CDiv(x, y) * y
  }

  /** add_msec, and the addition inside ev_after. */
  function AddMsec(t: Timeval, ms: int): Timeval {
    var sec := t.sec + CDiv(ms, 1000);
    var usec := t.usec + 1000 * CRem(ms, 1000);
    if usec >= 1_000_000 then Timeval(sec + 1, usec - 1_000_000) else Timeval(sec, usec)
  }

  /** add_msec always names the right instant, but it carries in one direction only:
      the result is normalised exactly when the microsecond field does not go below
      zero, in particular for every non-negative delay. */
  lemma AddMsecExact(t: Timeval, ms: int)
    requires t.Normal()
    ensures AddMsec(t, ms).Micros() == t.Micros() + 1000 * ms
    ensures AddMsec(t, ms).Normal() <==> t.usec + 1000 * CRem(ms, 1000) >= 0
    ensures ms >= 0 ==> AddMsec(t, ms).Normal()
  {
    assert CDiv(ms, 1000) * 1000 + CRem(ms, 1000) == ms;
    if ms >= 0 {
      assert 0 <= CRem(ms, 1000) < 1000;
    } else {
      assert -1000 < CRem(ms, 1000) <= 0;
    }
  }

  /** Conversion of a long to a 32-bit int. */
  function ToInt32(x: int): (r: int)
    ensures -0x8000_0000 <= r < 0x8000_0000
    ensures -0x8000_0000 <= x < 0x8000_0000 ==> r == x
  {
    (x + 0x8000_0000) % 0x1_0000_0000 - 0x8000_0000
  }

  /** The `sleeptime` a worker computes for an event due at `due`. */
  function SleepTime(due: Timeval, now: Timeval): int {
    ToInt32((due.sec - now.sec) * 1_000_000 + (due.usec - now.usec))
  }

  lemma SleepTimeIsDifference(due: Timeval, now: Timeval)
    ensures SleepTime(due, now) == ToInt32(due.Micros() - now.Micros())
    ensures -0x8000_0000 <= due.Micros() - now.Micros() < 0x8000_0000 ==>
              SleepTime(due, now) == due.Micros() - now.Micros()
  {
    assert (due.sec - now.sec) * 1_000_000 + (due.usec - now.usec) == due.Micros() - now.Micros();
  }
}
