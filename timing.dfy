/** Overflow-safe timing over the wrapping 32-bit millisecond counter.
    The counter reading (`millis()`) is passed in as `now` instead of being
    read from a clock. */
module Timing {

  /** 2^32: one full turn of the millisecond counter (about 49.7 days). */
  const Modulus: int := 0x1_0000_0000

  /** An unsigned 32-bit value (`uint32_t`). */
  type U32 = x: int | 0 <= x < 0x1_0000_0000

  const CheckInterval: U32 := 30000      // 30 s between site checks
  const DebounceDelay: U32 := 200        // 200 ms button debounce window
  const ReconnectInterval: U32 := 60000  // 60 s between reconnect attempts
  const WifiTimeout: U32 := 15000        // 15 s to connect at boot

  /** `currentTime - startTime` in unsigned 32-bit arithmetic: the
      mathematical difference reduced modulo 2^32. */
  function ElapsedTime(startTime: U32, currentTime: U32): (r: U32)
    ensures startTime <= currentTime ==> r == currentTime - startTime
    ensures currentTime < startTime ==> r == Modulus - startTime + currentTime
    // round trip: adding the elapsed time to the start lands on the current reading
    ensures (startTime + r) % Modulus == currentTime
  {
    (currentTime - startTime) % Modulus
  }

  /** True once at least `interval` ms have passed since `lastTime`. */
  function IntervalPassed(lastTime: U32, interval: U32, now: U32): (passed: bool)
    ensures lastTime <= now ==> (passed <==> now - lastTime >= interval)
    ensures now < lastTime ==> (passed <==> Modulus - lastTime + now >= interval)
  {
    ElapsedTime(lastTime, now) >= interval
  }

  /** True once at least `timeout` ms have passed since `startTime`. */
  function HasTimedOut(startTime: U32, timeout: U32, now: U32): (timedOut: bool)
    ensures startTime <= now ==> (timedOut <==> now - startTime >= timeout)
    ensures now < startTime ==> (timedOut <==> Modulus - startTime + now >= timeout)
  {
    ElapsedTime(startTime, now) >= timeout
  }

  /** The counter reading at real (unbounded) time `t`. */
  function Reading(t: nat): (r: U32)
    ensures t < Modulus ==> r == t
  {
    t % Modulus
  }

  /** The reading `d` ms after real time `t0` is the earlier reading plus
      `d`, less one counter turn when the counter wraps in between. */
  lemma ReadingAfter(t0: nat, d: nat)
    requires d < Modulus
    ensures Reading(t0) + d < Modulus ==> Reading(t0 + d) == Reading(t0) + d
    ensures Reading(t0) + d >= Modulus ==> Reading(t0 + d) == Reading(t0) + d - Modulus
  {
    var q := t0 / Modulus;
    var s := t0 % Modulus;
    assert t0 == q * Modulus + s;
    if s + d < Modulus {
      assert t0 + d == q * Modulus + (s + d);
    } else {
      assert t0 + d == (q + 1) * Modulus + (s + d - Modulus);
    }
  }

  /** Whatever real time `t0` the start was read at, and however often the
      counter wrapped before it, the elapsed time computed from the two
      wrapped readings is the true elapsed time `d`, as long as `d` is less
      than one turn of the counter. */
  lemma ElapsedTimeIsRealElapsed(t0: nat, d: nat)
    requires d < Modulus
    ensures ElapsedTime(Reading(t0), Reading(t0 + d)) == d
  {
    ReadingAfter(t0, d);
  }

  /** A true elapsed time below one counter turn is the only `d` that takes
      `startTime` to `currentTime`, so `ElapsedTime` cannot be anything else. */
  lemma ElapsedTimeUnique(startTime: U32, currentTime: U32, d: nat)
    requires d < Modulus
    requires (startTime + d) % Modulus == currentTime
    ensures ElapsedTime(startTime, currentTime) == d
  {
    ElapsedTimeIsRealElapsed(startTime, d);
  }

  /** `IntervalPassed` on wrapped readings decides the interval on true time. */
  lemma IntervalPassedRealTime(t0: nat, d: nat, interval: U32)
    requires d < Modulus
    ensures IntervalPassed(Reading(t0), interval, Reading(t0 + d)) <==> d >= interval
  {
    ElapsedTimeIsRealElapsed(t0, d);
  }

  /** `HasTimedOut` on wrapped readings decides the timeout on true time:
      not yet below `timeout`, and from `timeout` on for the rest of the
      counter turn. */
  lemma HasTimedOutRealTime(t0: nat, d: nat, timeout: U32)
    requires d < Modulus
    ensures HasTimedOut(Reading(t0), timeout, Reading(t0 + d)) <==> d >= timeout
  {
    ElapsedTimeIsRealElapsed(t0, d);
  }

  /** A timeout started at `startTime` fires exactly `timeout` ms later
      (`startTime + timeout`, wrapping), not one millisecond earlier. */
  lemma TimeoutAtOffsetStart(startTime: U32, timeout: U32)
    ensures HasTimedOut(startTime, timeout, Reading(startTime + timeout))
    ensures timeout > 0 ==> !HasTimedOut(startTime, timeout, Reading(startTime + timeout - 1))
  {
    ElapsedTimeIsRealElapsed(startTime, timeout);
    if timeout > 0 {
      ElapsedTimeIsRealElapsed(startTime, timeout - 1);
    }
  }

  /** After `lastCheck := now`, the interval is not passed at any earlier
      offset and is passed from `now + interval` on (up to one counter turn). */
  lemma RescheduledInterval(now: U32, interval: U32, k: nat)
    requires k < Modulus
    ensures IntervalPassed(now, interval, Reading(now + k)) <==> k >= interval
  {
    IntervalPassedRealTime(now, k, interval);
  }

  /** The timing constants and the cases of the timing tests whose
      expectations agree with unsigned subtraction. */
  lemma TimingExamples()
    ensures CheckInterval == 30000 && DebounceDelay == 200
    ensures ReconnectInterval == 60000 && WifiTimeout == 15000
    ensures ReconnectInterval > CheckInterval
    ensures ElapsedTime(1000, 1000) == 0
    ensures ElapsedTime(1000, 1500) == 500
    ensures ElapsedTime(0, 1000000) == 1000000
    ensures ElapsedTime(0xFFFFFFFE, 0xFFFFFFFF) == 1
    ensures IntervalPassed(0xFFFFFFFF - 15000, CheckInterval, 15001)
    ensures !IntervalPassed(1000, CheckInterval, 1000)
    ensures !IntervalPassed(0, CheckInterval, CheckInterval - 1)
    ensures IntervalPassed(0, CheckInterval, CheckInterval)
    ensures IntervalPassed(0, CheckInterval, CheckInterval + 1000)
    ensures IntervalPassed(0, ReconnectInterval, ReconnectInterval)
    ensures !HasTimedOut(0, WifiTimeout, WifiTimeout - 1)
    ensures HasTimedOut(0, WifiTimeout, WifiTimeout)
    ensures HasTimedOut(0, WifiTimeout, WifiTimeout + 5000)
    ensures HasTimedOut(10000, WifiTimeout, 10000 + WifiTimeout)
    ensures !IntervalPassed(0, DebounceDelay, 0) && !IntervalPassed(0, DebounceDelay, DebounceDelay - 1)
    ensures IntervalPassed(0, DebounceDelay, DebounceDelay) && IntervalPassed(0, DebounceDelay, DebounceDelay + 100)
    ensures IntervalPassed(CheckInterval, CheckInterval, CheckInterval * 2)
    ensures IntervalPassed(CheckInterval * 2, CheckInterval, CheckInterval * 3)
    ensures !IntervalPassed(CheckInterval, CheckInterval, CheckInterval + CheckInterval / 2)
  {
  }

  /** The two overflow tests start at `0xFFFFFFFF - 100` and
      `0xFFFFFFFF - 10000`, which lie 101 and 10001 ms before the counter
      wraps to 0, so unsigned subtraction yields one more than the 200 and
      30000 the tests expect. */
  lemma OverflowTestsAsWritten()
    ensures ElapsedTime(0xFFFFFFFF - 100, 100) == 201
    ensures ElapsedTime(0xFFFFFFFF - 10000, 20000) == 30001
  {
  }

  /** With the starts placed 100 and 10000 ms before the wrap, as the tests'
      comments describe, the elapsed times are the expected 200 and 30000:
      an instance of `ElapsedTimeIsRealElapsed`. */
  lemma OverflowTestsCorrected()
    ensures ElapsedTime(Reading(Modulus - 100), Reading(Modulus - 100 + 200)) == 200
    ensures Reading(Modulus - 100) == 0xFFFFFFFF - 99 && Reading(Modulus - 100 + 200) == 100
    ensures ElapsedTime(Reading(Modulus - 10000), Reading(Modulus - 10000 + 30000)) == 30000
    ensures Reading(Modulus - 10000) == 0xFFFFFFFF - 9999 && Reading(Modulus - 10000 + 30000) == 20000
  {
    ElapsedTimeIsRealElapsed(Modulus - 100, 200);
    ElapsedTimeIsRealElapsed(Modulus - 10000, 30000);
  }
}
