/** The end-of-iteration sleep of `background_task` is computed from the
    clock read at the top of the iteration, before the first sleep and before
    the handler ran. It is meant to end at the next midnight, but it ends that
    far past the midnight as the handler call ended past `now`. This module
    shows the consequence and the loop with the clock read afresh. */
module StaleClock {
  import opened Clock
  import opened RiotLookup
  import opened Schedule

  /** As written: an instantaneous handler keeps the target, but a handler
      that takes longer than the iteration's start lay past midnight pushes
      the next iteration's start past the target, and the handler is then
      called at once, off target and more than a day after the last call. */
  lemma StaleClockFiresLate(now: int, when: TimeOfDay, calls: seq<Call>)
    requires |calls| >= 2 && Returns(CalledOnceADay(calls[0].lookup))
    requires TimeOf(now) <= when
    requires TimeOf(now) < calls[0].duration < Day - when + TimeOf(now)
    ensures var log := LoopTrace(now, when, calls).log;
      |log| >= 2 &&
      log[0].at == Midnight(now) + when &&
      log[1].at == Midnight(now) + Day + when + (calls[0].duration - TimeOf(now)) &&
      TimeOf(log[1].at) != when &&
      log[1].at - log[0].at > Day
  {
    var d := calls[0].duration;
    var e := IterationEnd(now, when, d);
    var m := Midnight(now) + Day;
    assert e == m + when - TimeOf(now) + d;
    MidnightUnique(e, m);
    var log := LoopTrace(now, when, calls).log;
    var rest := LoopTrace(e, when, calls[1..]).log;
    assert log == [log[0]] + rest;
    assert log[1] == rest[0];
  }

  /** As written, continued: when the late call also returns and takes no
      longer than `when`, the iteration after it wakes just past the next
      midnight and calls the handler on target again, less than a day after
      the late call. */
  lemma StaleClockFiresEarly(now: int, when: TimeOfDay, calls: seq<Call>)
    requires |calls| >= 3 && Returns(CalledOnceADay(calls[0].lookup)) && Returns(CalledOnceADay(calls[1].lookup))
    requires TimeOf(now) <= when
    requires TimeOf(now) < calls[0].duration < Day - when + TimeOf(now)
    requires calls[1].duration <= when
    ensures var log := LoopTrace(now, when, calls).log;
      |log| >= 3 &&
      log[2].at == Midnight(now) + 2 * Day + when &&
      TimeOf(log[2].at) == when &&
      log[2].at - log[1].at < Day
  {
    var d0, d1 := calls[0].duration, calls[1].duration;
    var m1 := Midnight(now) + Day;
    var e1 := IterationEnd(now, when, d0);
    assert e1 == m1 + when - TimeOf(now) + d0;
    MidnightUnique(e1, m1);
    assert FireTime(e1, when) == e1;
    var e2 := IterationEnd(e1, when, d1);
    assert e2 == m1 + Day + d1;
    MidnightUnique(e2, m1 + Day);
    var log := LoopTrace(now, when, calls).log;
    var rest := LoopTrace(e1, when, calls[1..]).log;
    var rest2 := LoopTrace(e2, when, calls[1..][1..]).log;
    assert calls[1..][0] == calls[1];
    assert log == [log[0]] + rest;
    assert rest == [rest[0]] + rest2;
    assert log[1] == rest[0] && log[2] == rest2[0];
  }

  /** The end of an iteration whose last sleep is measured from the clock
      after the handler returns: the next midnight, or the handler's return
      when that is already later. */
  function FreshIterationEnd(now: int, when: TimeOfDay, d: nat): (e: int)
    ensures e == if FireTime(now, when) + d < NextMidnight(now) then NextMidnight(now)
                 else FireTime(now, when) + d
  {
    var back := FireTime(now, when) + d;
    Advance(back, NextMidnight(now) - back)
  }

  /** The loop of `background_task` with the clock re-read before the last sleep. */
  function FreshLoopTrace(now: int, when: TimeOfDay, calls: seq<Call>): (r: Trace)
    ensures |r.log| <= |calls| && (calls != [] ==> r.log != [])
    ensures forall k :: 0 <= k < |r.log| ==> r.log[k].outcome == CalledOnceADay(calls[k].lookup)
    ensures forall k :: 0 <= k < |r.log| - 1 ==> Returns(r.log[k].outcome)
    ensures |r.log| < |calls| ==> !Returns(r.log[|r.log| - 1].outcome)
    ensures calls != [] ==> r.log[0].at == FireTime(now, when)
    decreases |calls|
  {
    if calls == [] then Trace(now, [])
    else
      var fired := FireTime(now, when);
      var o := CalledOnceADay(calls[0].lookup);
      if !Returns(o) then Trace(fired + calls[0].duration, [Firing(fired, o)])
      else
        var rest := FreshLoopTrace(FreshIterationEnd(now, when, calls[0].duration), when, calls[1..]);
        Trace(rest.clock, [Firing(fired, o)] + rest.log)
  }

  /** An iteration started no later than the target, whose handler takes at
      most a day, ends on the next day no later than the target. */
  lemma FreshIteration(now: int, when: TimeOfDay, d: nat)
    requires TimeOf(now) <= when && d <= Day
    ensures Midnight(FreshIterationEnd(now, when, d)) == Midnight(now) + Day
    ensures TimeOf(FreshIterationEnd(now, when, d)) <= when
  {
    var e := FreshIterationEnd(now, when, d);
    var m := Midnight(now) + Day;
    assert m <= e <= m + when;
    MidnightUnique(e, m);
  }

  /** With the clock re-read, every handler call that takes at most a day
      keeps the schedule: the k-th call is at the target, k days on. */
  lemma {:induction false} FreshFiresAtTarget(now: int, when: TimeOfDay, calls: seq<Call>)
    requires TimeOf(now) <= when
    requires forall k :: 0 <= k < |calls| ==> calls[k].duration <= Day
    ensures DailyAt(FreshLoopTrace(now, when, calls).log, Midnight(now), when)
    decreases |calls|
  {
    if calls != [] && Returns(CalledOnceADay(calls[0].lookup)) {
      var e := FreshIterationEnd(now, when, calls[0].duration);
      FreshIteration(now, when, calls[0].duration);
      FreshFiresAtTarget(e, when, calls[1..]);
      var log := FreshLoopTrace(now, when, calls).log;
      var rest := FreshLoopTrace(e, when, calls[1..]).log;
      assert log == [log[0]] + rest;
      forall k | 0 <= k < |log|
        ensures log[k].at == Midnight(now) + k * Day + when
      {
        if k > 0 {
          assert log[k] == rest[k - 1];
        }
      }
    }
  }
}
