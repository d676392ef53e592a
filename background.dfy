/** `background_task` as the program runs it: a task that reads an abstract
    UTC clock, sleeps on it and calls the daily handler, keeping a log of
    every call it made. */
module Background {
  import opened Clock
  import opened RiotLookup
  import opened Schedule

  class DailyTask {
    /** The configured target time of day (`WHEN`). */
    const when: TimeOfDay
    /** The abstract UTC clock, read by `datetime.utcnow()`. */
    var clock: int
    /** Every handler call so far, in order. */
    var log: seq<Firing>

    constructor (start: int, when: TimeOfDay)
      ensures this.when == when && clock == start && log == []
    {
      this.when := when;
      clock := start;
      log := [];
    }

    /** `await asyncio.sleep(s)`: a non-positive duration yields at once. */
    method Sleep(s: int)
      modifies this
      ensures clock == Advance(old(clock), s) && log == old(log)
    {
      if s > 0 {
        clock := clock + s;
      }
    }

    /** `await called_once_a_day()`: the call is logged at the current clock
        and the clock moves on by the time the call takes. */
    method CallHandler(call: Call) returns (o: Outcome)
      modifies this
      ensures o == CalledOnceADay(call.lookup)
      ensures log == old(log) + [Firing(old(clock), o)]
      ensures clock == old(clock) + call.duration
    {
      o := CalledOnceADay(call.lookup);
      log := log + [Firing(clock, o)];
      clock := clock + call.duration;
    }

    /** One iteration of the `while True` loop: read the clock, sleep until
        the day's target, call the handler and, when it returns, sleep for
        the time from the clock read to the next midnight. */
    method Iterate(call: Call) returns (o: Outcome)
      modifies this
      ensures o == CalledOnceADay(call.lookup)
      ensures log == old(log) + [Firing(FireTime(old(clock), when), o)]
      ensures clock == if Returns(o) then IterationEnd(old(clock), when, call.duration)
                       else FireTime(old(clock), when) + call.duration
    {
      var now := clock;
      var targetTime := Combine(now, when);
      var secondsUntilTarget := targetTime - now;
      Sleep(secondsUntilTarget);
      o := CallHandler(call);
      if Returns(o) {
        var tomorrow := NextMidnight(now);
        var seconds := tomorrow - now;
        Sleep(seconds);
      }
    }

    /** `background_task`: the start-up guard, then one loop iteration per
        element of `calls`; a handler that raises ends the task. */
    method Run(calls: seq<Call>)
      modifies this
      ensures clock == TaskTrace(old(clock), when, calls).clock
      ensures log == old(log) + TaskTrace(old(clock), when, calls).log
    {
      var now := clock;
      if TimeOf(now) > when {
        var tomorrow := NextMidnight(now);
        var seconds := tomorrow - now;
        Sleep(seconds);
      }
      ghost var spec := TaskTrace(old(clock), when, calls);
      assert spec == LoopTrace(clock, when, calls);
      var i := 0;
      assert log == old(log) && calls[i..] == calls;
      while i < |calls|
        invariant i <= |calls|
        invariant spec.clock == LoopTrace(clock, when, calls[i..]).clock
        invariant old(log) + spec.log == log + LoopTrace(clock, when, calls[i..]).log
        decreases |calls| - i
      {
        ghost var before, start := log, clock;
        assert calls[i..][0] == calls[i] && calls[i..][1..] == calls[i + 1..];
        var o := Iterate(calls[i]);
        if !Returns(o) {
          LoopTraceStep(start, when, calls[i..]);
          return;
        }
        LoopTraceExtend(before, start, when, calls[i..]);
        i := i + 1;
      }
      assert calls[i..] == [];
    }
  }
}
