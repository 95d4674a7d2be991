/** The independently sampled boot, monotonic and wall clock of src/heterodyne/actions/dispatch.py. */
module Clocks {
  import opened Outcomes

  const SECOND: int := 1_000_000_000
  const CLOCK_LIMIT: int := 0x8000_0000_0000_0000

  datatype Clock = Clock(bootId: string, mono: int, utc: int)

  predicate ValidClock(c: Clock) {
    && 1 <= |c.bootId| <= 128
    && (forall x :: x in c.bootId ==> 'a' <= x <= 'z' || 'A' <= x <= 'Z' || '0' <= x <= '9' || x in "-_.")
    && 0 <= c.mono < CLOCK_LIMIT
    && 0 <= c.utc < CLOCK_LIMIT
  }

  function Abs(x: int): int {
    if x < 0 then -x else x
  }

  /** Two samples lie on one continuous clock: same boot, neither axis runs back, at most 1 s of drift. */
  predicate Continuous(started: Clock, now: Clock) {
    && ValidClock(started)
    && ValidClock(now)
    && now.bootId == started.bootId
    && started.mono <= now.mono
    && started.utc <= now.utc
    && Abs((now.utc - started.utc) - (now.mono - started.mono)) <= SECOND
  }

  /** Whole elapsed seconds, refused unless the two samples are continuous. */
  function ClockElapsed(started: Clock, now: Clock): (r: Result<int>)
    ensures r.Ok? <==> Continuous(started, now)
    ensures r.Ok? ==> r.value >= 0 && r.value * SECOND <= now.mono - started.mono < (r.value + 1) * SECOND
  {
    if !ValidClock(started) || !ValidClock(now) then Refused("invalid-clock")
    else if !Continuous(started, now) then Refused("dispatch-clock-or-deadline")
    else Ok((now.mono - started.mono) / SECOND)
  }
}
