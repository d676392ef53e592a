/** The sleep arithmetic of `background_task` and the sequence of handler
    firings it produces, as functions of the clock. `when` is the configured
    daily target time of day (`WHEN`). The task's `while True` is modelled one
    iteration per element of `calls`, each element saying what the handler's
    lookup returned and how long the handler took. */
module Schedule {
  import opened Clock
  import opened RiotLookup

  /** What one call of `called_once_a_day` meets: the lookup result and the
      ticks the call takes before it returns or raises. */
  datatype Call = Call(lookup: Lookup, duration: nat)

  /** One call of the handler: the clock when it was called and how it ended. */
  datatype Firing = Firing(at: int, outcome: Outcome)

  /** The clock when the task stops (or its prefix ends) and the firings so far. */
  datatype Trace = Trace(clock: int, log: seq<Firing>)

  // ---------------------------------------------------------------------
  // One step at a time

  /** The time the start-up guard sleeps: until the next midnight when the
      task starts after `when`, not at all otherwise (the test is strict). */
  function PreLoopSleep(now: int, when: TimeOfDay): (s: int)
    ensures TimeOf(now) > when ==> 0 < s < Day && now + s == NextMidnight(now)
    ensures TimeOf(now) <= when ==> s == 0
  {
    if TimeOf(now) > when then NextMidnight(now) - now else 0
  }

  /** The clock at which the loop is first entered. */
  function LoopEntry(start: int, when: TimeOfDay): (c: int)
    ensures TimeOf(c) <= when
    ensures SecondsUntilTarget(c, when) >= 0
    ensures TimeOf(start) <= when ==> c == start
    ensures TimeOf(start) > when ==> c == NextMidnight(start) && start < c < start + Day
  {
    Advance(start, PreLoopSleep(start, when))
  }

  /** `(combine(now.date(), WHEN) - now)`: negative exactly when the day's
      target has already passed. */
  function SecondsUntilTarget(now: int, when: TimeOfDay): (s: int)
    ensures now + s == Combine(now, when)
    ensures s < 0 <==> TimeOf(now) > when
    ensures -Day < s < Day
  {
    Combine(now, when) - now
  }

  /** `(tomorrow - now)`: ticks from `now` to the following midnight. */
  function SecondsUntilTomorrow(now: int): (s: int)
    ensures 0 < s <= Day
    ensures TimeOf(now + s) == 0 && now + s == NextMidnight(now)
  {
    NextMidnight(now) - now
  }

  /** When the handler is called in an iteration that read the clock at `now`:
      the later of `now` and the day's target. */
  function FireTime(now: int, when: TimeOfDay): (f: int)
    ensures f == if Combine(now, when) < now then now else Combine(now, when)
    ensures now <= f < now + Day
    ensures TimeOf(now) > when ==> f == now
    ensures TimeOf(now) <= when ==> Midnight(f) == Midnight(now) && TimeOf(f) == when
  {
    Advance(now, SecondsUntilTarget(now, when))
  }

  /** The clock at the end of an iteration that read the clock at `now` and
      whose handler took `d` ticks. The last sleep is measured from that same
      `now`, so its length does not depend on `d`. */
  function IterationEnd(now: int, when: TimeOfDay, d: nat): (e: int)
    ensures e == FireTime(now, when) + d + SecondsUntilTomorrow(now)
    ensures FireTime(now, when) + d < e <= FireTime(now, when) + d + Day
  {
    Advance(FireTime(now, when) + d, SecondsUntilTomorrow(now))
  }

  // ---------------------------------------------------------------------
  // The whole task

  /** The loop run from clock `now`: each iteration fires the handler once;
      a handler that raises ends the task with the clock where it raised. */
  function LoopTrace(now: int, when: TimeOfDay, calls: seq<Call>): (r: Trace)
    ensures |r.log| <= |calls| && (calls != [] ==> r.log != [])
    ensures forall k :: 0 <= k < |r.log| ==> r.log[k].outcome == CalledOnceADay(calls[k].lookup)
    ensures forall k :: 0 <= k < |r.log| - 1 ==> Returns(r.log[k].outcome)
    ensures |r.log| < |calls| ==> !Returns(r.log[|r.log| - 1].outcome)
    ensures calls != [] ==> r.log[0].at == FireTime(now, when)
    ensures forall k :: 0 <= k < |r.log| ==> now <= r.log[k].at <= r.clock
    decreases |calls|
  {
    if calls == [] then Trace(now, [])
    else
      var fired := FireTime(now, when);
      var o := CalledOnceADay(calls[0].lookup);
      if !Returns(o) then Trace(fired + calls[0].duration, [Firing(fired, o)])
      else
        var rest := LoopTrace(IterationEnd(now, when, calls[0].duration), when, calls[1..]);
        Trace(rest.clock, [Firing(fired, o)] + rest.log)
  }

  /** One unfolding of the loop's trace. */
  lemma LoopTraceStep(now: int, when: TimeOfDay, calls: seq<Call>)
    requires calls != []
    ensures var fired := Firing(FireTime(now, when), CalledOnceADay(calls[0].lookup));
      if Returns(fired.outcome) then
        var rest := LoopTrace(IterationEnd(now, when, calls[0].duration), when, calls[1..]);
        LoopTrace(now, when, calls) == Trace(rest.clock, [fired] + rest.log)
      else
        LoopTrace(now, when, calls) == Trace(fired.at + calls[0].duration, [fired])
  {
  }

  /** An iteration whose handler returns adds its call to a log kept so far
      and leaves the rest of the trace to the next iteration. */
  lemma LoopTraceExtend(before: seq<Firing>, now: int, when: TimeOfDay, calls: seq<Call>)
    requires calls != [] && Returns(CalledOnceADay(calls[0].lookup))
    ensures var fired := Firing(FireTime(now, when), CalledOnceADay(calls[0].lookup));
      var rest := LoopTrace(IterationEnd(now, when, calls[0].duration), when, calls[1..]);
      LoopTrace(now, when, calls).clock == rest.clock &&
      before + LoopTrace(now, when, calls).log == (before + [fired]) + rest.log
  {
    var fired := Firing(FireTime(now, when), CalledOnceADay(calls[0].lookup));
    var rest := LoopTrace(IterationEnd(now, when, calls[0].duration), when, calls[1..]);
    assert LoopTrace(now, when, calls).log == [fired] + rest.log;
    assert before + ([fired] + rest.log) == (before + [fired]) + rest.log;
  }

  /** `background_task` started at clock `start`: the guard, then the loop. */
  function TaskTrace(start: int, when: TimeOfDay, calls: seq<Call>): (r: Trace)
    ensures calls != [] ==> r.log != [] && start <= r.log[0].at < start + Day
  {
    LoopTrace(LoopEntry(start, when), when, calls)
  }

  /** The midnight of the day on which the task first fires. */
  function FirstDay(start: int, when: TimeOfDay): int {
    if TimeOf(start) <= when then Midnight(start) else Midnight(start) + Day
  }

  // ---------------------------------------------------------------------
  // Properties of the loop

  /** Each call of the handler ends before the next one is made. */
  predicate Serialized(log: seq<Firing>, calls: seq<Call>) {
    forall k {:trigger calls[k]} :: 0 <= k < |log| - 1 && k < |calls| ==> log[k].at + calls[k].duration < log[k + 1].at
  }

  /** The k-th firing is at time of day `when` on the k-th day after midnight `day0`. */
  predicate DailyAt(log: seq<Firing>, day0: int, when: TimeOfDay) {
    forall k :: 0 <= k < |log| ==> log[k].at == day0 + k * Day + when
  }

  /** The handler is awaited before the next sleep is computed: each call
      ends before the next one starts, even when a call outlasts a day. */
  lemma {:induction false} FiringsSerialized(now: int, when: TimeOfDay, calls: seq<Call>)
    ensures Serialized(LoopTrace(now, when, calls).log, calls)
    decreases |calls|
  {
    if calls != [] && Returns(CalledOnceADay(calls[0].lookup)) {
      var first := Firing(FireTime(now, when), CalledOnceADay(calls[0].lookup));
      var e := IterationEnd(now, when, calls[0].duration);
      var rest := LoopTrace(e, when, calls[1..]).log;
      FiringsSerialized(e, when, calls[1..]);
      var log := [first] + rest;
      assert LoopTrace(now, when, calls).log == log;
      forall k | 0 <= k < |log| - 1
        ensures log[k].at + calls[k].duration < log[k + 1].at
      {
        if k > 0 {
          assert log[k] == rest[k - 1] && log[k + 1] == rest[k];
          assert calls[k] == calls[1..][k - 1];
          assert rest[k - 1].at + calls[1..][k - 1].duration < rest[k].at;
        } else {
          assert log[1] == rest[0];
          assert rest[0].at >= e > first.at + calls[0].duration;
        }
      }
    }
  }

  /** An iteration with an instantaneous handler that starts no later than the
      target ends on the next day, again no later than the target. */
  lemma QuietIteration(now: int, when: TimeOfDay)
    requires TimeOf(now) <= when
    ensures Midnight(IterationEnd(now, when, 0)) == Midnight(now) + Day
    ensures TimeOf(IterationEnd(now, when, 0)) <= when
  {
    var e := IterationEnd(now, when, 0);
    assert e == Midnight(now) + Day + (when - TimeOf(now));
    MidnightUnique(e, Midnight(now) + Day);
  }

  /** With instantaneous handlers, the k-th firing of a loop entered no later
      than the target is at the target time, k days later. */
  lemma {:induction false} QuietDaysFireAtTarget(now: int, when: TimeOfDay, calls: seq<Call>)
    requires TimeOf(now) <= when
    requires forall k :: 0 <= k < |calls| ==> calls[k].duration == 0
    ensures DailyAt(LoopTrace(now, when, calls).log, Midnight(now), when)
    decreases |calls|
  {
    if calls != [] && Returns(CalledOnceADay(calls[0].lookup)) {
      var e := IterationEnd(now, when, 0);
      QuietIteration(now, when);
      QuietDaysFireAtTarget(e, when, calls[1..]);
      var log := LoopTrace(now, when, calls).log;
      var rest := LoopTrace(e, when, calls[1..]).log;
      assert log == [log[0]] + rest;
      forall k | 0 <= k < |log|
        ensures log[k].at == Midnight(now) + k * Day + when
      {
        if k > 0 {
          assert log[k] == rest[k - 1];
        }
      }
    }
  }

  /** From any start, instantaneous handlers are called once a day at the
      target time, starting on the first day whose target is not yet past. */
  lemma TaskFiresDaily(start: int, when: TimeOfDay, calls: seq<Call>)
    requires forall k :: 0 <= k < |calls| ==> calls[k].duration == 0
    ensures DailyAt(TaskTrace(start, when, calls).log, FirstDay(start, when), when)
  {
    var c := LoopEntry(start, when);
    QuietDaysFireAtTarget(c, when, calls);
    assert Midnight(c) == FirstDay(start, when);
    assert TaskTrace(start, when, calls) == LoopTrace(c, when, calls);
  }
}
