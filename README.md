# Daily report task of LolRehab, modelled in Dafny

LolRehab is a Discord bot that once a day looks up a Riot account and posts
its game name to a channel. Its schedule is run by `background_task` in
`bot.py`. At start-up the task makes sure it is not already past the
configured time of day `WHEN`: if it is, it sleeps to the next UTC midnight.
Then it loops forever. Each iteration sleeps until `WHEN` on the current day,
calls the handler `called_once_a_day`, and sleeps "until tomorrow". The
handler asks the Riot API for the account. If the lookup raises an
`HTTPError`, the handler branches on its status code.

This project models both parts.

- `clock.dfy` (module `Clock`) models the UTC clock as integer ticks. One tick
  is one microsecond, the resolution of Python's `datetime`. It defines the
  day arithmetic `now.time()`, `now.date()` and `datetime.combine`. It also
  defines the clock advance of `asyncio.sleep`, where a non-positive duration
  yields at once.
- `lookup.dfy` (module `RiotLookup`) models the status-code classification of
  the `except HTTPError` clause. It also says how one call of the handler
  ends.
- `schedule.dfy` (module `Schedule`) defines the sleep durations one step at a
  time. It defines the sequence of handler calls the task makes as a function
  of the start clock, the target time and the calls' inputs. It proves the
  scheduling properties about these functions.
- `background.dfy` (module `Background`) holds class `DailyTask`: the task
  itself, with a clock field and a log of handler calls. Its methods sleep,
  call the handler and run the loop. `Run` is proved to produce exactly the
  trace that `Schedule.TaskTrace` defines.
- `stale_clock.dfy` (module `StaleClock`) covers the finding below: the
  as-written end-of-iteration sleep, and the loop with the clock read afresh.

`WHEN` is never defined in `bot.py`. Here it is a parameter `when` of type
`Clock.TimeOfDay`, a time of day in `[0, Day)`. `background_task` is never
started by the program either; the model describes what it does once it
runs. The task's endless `while True` is modelled one iteration per element
of a sequence of `Call`s. Each `Call` gives the lookup result the handler
gets and the ticks the handler call takes.

The model follows the code where it differs from an idealised daily
scheduler for this bot:

- An idealised scheduler would move a target that has passed to the next
  day. The code instead sleeps to the next midnight and then lets the loop
  compute the target.
- An idealised scheduler would recompute every sleep from a fresh clock
  reading. The code measures the last sleep of an iteration from the clock
  read at the start of that iteration (see Findings).
- An idealised scheduler would survive handler failures. In the code, an
  exception that leaves `called_once_a_day` ends `background_task`. So does
  `quit()`. The model's loop stops at such a call.
- `bot.py` has no monthly report cycle, so none is modelled.

## Model

| member | source | states |
|---|---|---|
| `Clock.TimeOf` | bot.py:48 | the time of day of an instant lies in `[0, Day)` and is the distance from that instant's midnight |
| `Clock.Midnight` | bot.py:54 | the start of an instant's day is a multiple of a day, at or before the instant and less than a day before it |
| `Clock.MidnightUnique` | bot.py:54 | any multiple of a day that lies at most a day before an instant is that instant's midnight, so `date()` is well defined |
| `Clock.Combine` | bot.py:54 | `combine(now.date(), at)` lies on the same day as `now` and has time of day `at` |
| `Clock.NextMidnight` | bot.py:49 | `combine(date + 1 day, time(0))` is a midnight strictly after the instant, at most a day later, and starts the next day |
| `Clock.Advance` | bot.py:56 | `asyncio.sleep(s)` never moves the clock back: a non-positive `s` leaves it unchanged, a positive `s` advances it by `s` |
| `RiotLookup.Classify` | bot.py:31-42 | status 429 selects the retry-logging branch, 404 the not-found branch and 400 the quit branch, each if and only if; every other status re-raises |
| `RiotLookup.CalledOnceADay` | bot.py:27-44 | the handler posts the game name if and only if the lookup succeeded; a 429 whose response has a `Retry-After` header, and any 404, is logged and then fails on the unbound `player`; a 429 without that header raises KeyError while being logged; a 400 exits; every other status propagates the same error; a lookup failure that is not an `HTTPError` escapes the handler |
| `Schedule.PreLoopSleep` | bot.py:47-51 | when the start is strictly after `WHEN`, the guard sleeps exactly to the next midnight, strictly more than 0 and strictly less than a day; at or before `WHEN` it does not sleep |
| `Schedule.LoopEntry` | bot.py:46-52 | the loop is entered at a time of day no later than `WHEN`, so the first `seconds_until_target` is never negative; the entry is the start itself, or the next midnight less than a day later |
| `Schedule.SecondsUntilTarget` | bot.py:53-55 | `seconds_until_target` reaches the day's target from `now`; it is negative exactly when `now` is past `WHEN`; it lies strictly within one day either way |
| `Schedule.SecondsUntilTomorrow` | bot.py:58-59 | the time from `now` to the next midnight lies in `(0, Day]` and ends at a midnight |
| `Schedule.FireTime` | bot.py:53-57 | the handler is called at the later of `now` and the day's target, so a negative target sleep calls it at once, with no clock advance; otherwise the call is at `WHEN` on `now`'s day |
| `Schedule.IterationEnd` | bot.py:53-60 | the last sleep of an iteration has the length `now` to next midnight, whatever the handler took; the iteration ends more than 0 and at most a day after the handler returns |
| `Schedule.LoopTrace` | bot.py:52-60 | the loop calls the handler once per iteration, with the lookup result of that iteration; it goes on exactly while the handler returns and stops at the first call that raises; the first call is at `FireTime`; every call lies between the entry clock and the final clock |
| `Schedule.TaskTrace` | bot.py:46-60 | from any start, the first handler call is made no earlier than the start and less than a day after it |
| `Schedule.FiringsSerialized` | bot.py:56-60 | each handler call ends strictly before the next begins, however long it takes, so calls never overlap |
| `Schedule.QuietIteration` | bot.py:52-60 | with an instantaneous handler, an iteration that starts no later than `WHEN` ends on the next day, again no later than `WHEN` |
| `Schedule.QuietDaysFireAtTarget` | bot.py:52-60 | with instantaneous handlers, the k-th call of a loop entered no later than `WHEN` is at `WHEN` exactly k days after the entry day's midnight |
| `Schedule.TaskFiresDaily` | bot.py:46-60 | with instantaneous handlers, from any start the task calls the handler at `WHEN` on consecutive days, beginning with the first day whose `WHEN` has not yet passed |
| `Background.DailyTask.constructor` | bot.py:46-47 | a new task holds the start clock, the target `WHEN` and an empty log |
| `Background.DailyTask.Sleep` | bot.py:51 | sleeping moves the task's clock as `Clock.Advance` does and adds nothing to the log |
| `Background.DailyTask.CallHandler` | bot.py:57 | awaiting the handler logs one call at the current clock with its outcome, and advances the clock by the call's duration |
| `Background.DailyTask.Iterate` | bot.py:53-60 | one iteration logs exactly one handler call, at `FireTime`; it ends at `IterationEnd` when the handler returns, and where the handler raised otherwise |
| `Background.DailyTask.Run` | bot.py:46-60 | the task's final clock is that of `Schedule.TaskTrace`, and the calls it logs are exactly that trace's calls |
| `StaleClock.StaleClockFiresLate` | bot.py:58-60 | as written: the iteration starts at time of day t ≤ `WHEN`, and the handler takes d with t < d < Day − `WHEN` + t; then the next call is made at `WHEN` + (d − t) on the next day, off target and more than a day after the first |
| `StaleClock.StaleClockFiresEarly` | bot.py:58-60 | as written, continued: the late call also returns and takes at most `WHEN`; then the call after it is on target again, two days after the first iteration's midnight and less than a day after the late call |
| `StaleClock.FreshIterationEnd` | bot.py:58-60 | corrected: with the clock re-read after the handler, the iteration ends at the next midnight, or when the handler returns if that is later |
| `StaleClock.FreshLoopTrace` | bot.py:52-60 | corrected loop: one call per iteration with that iteration's lookup result, going on exactly while the handler returns, the first call at `FireTime` |
| `StaleClock.FreshIteration` | bot.py:52-60 | corrected: the iteration starts no later than `WHEN` and the handler takes at most a day; then the iteration ends on the next day, no later than `WHEN` |
| `StaleClock.FreshFiresAtTarget` | bot.py:52-60 | corrected: when every handler call takes at most a day, the k-th call is at `WHEN` exactly k days after the entry day's midnight |

## Findings

| source | as written | input that shows it | evidently intended | confidence | as-written member | corrected member |
|---|---|---|---|---|---|---|
| bot.py:58-60 | the sleep "until tomorrow" is measured from the `now` read at line 53, before the target sleep and the handler call, so it ends past midnight by the time since `now` | `WHEN` = 18:00; the task starts at 00:00:00 UTC; each handler call takes 1 s. The first call is at 18:00:00. The loop wakes at 18:00:01 the next day and calls the handler at once, off target. The call after that is again at 18:00, less than 24 h later | wake at the next midnight (re-read the clock before computing `seconds`), so every call is at `WHEN` on consecutive days | high; not executed | `StaleClock.StaleClockFiresLate` | `StaleClock.FreshFiresAtTarget` |

`StaleClock.StaleClockFiresEarly` proves the rest of the example: the third
call is back at `WHEN`, less than a day after the late one. The class
`Background.DailyTask` and `Schedule.LoopTrace` model the loop as
written. The corrected loop `StaleClock.FreshLoopTrace` is used only by the
corrected property.

## Left out

- Discord client set-up, `on_ready`, `bot.wait_until_ready()`, the channel lookup and `channel.send` (bot.py:18-25, bot.py:28, bot.py:43-44, bot.py:62) are network I/O. The time the handler spends in them is part of a call's `duration`, and a successful call is modelled as `Sent(gameName)`.
- The channel lookup at bot.py:43 goes through `bot.bot`, which a `discord.Client` does not have, so it raises on every path. The model leaves that line out, so a successful lookup counts as posted.
- `load_dotenv`, `os.getenv` and the `RiotWatcher`/`LolWatcher` clients (bot.py:10-16, bot.py:30) are environment access and a foreign HTTP client. The lookup's result is an input (`RiotLookup.Lookup`): an account, an `HTTPError` with its status and whether it carries `Retry-After`, or another failure.
- The messages printed on a 429, 404 or 400 (bot.py:33-35, 37, 39) are console output. The model records only which branch was taken, and not the `Retry-After` header text.
- `datetime.utcnow()` and `asyncio.sleep` are replaced by the abstract clock. Other tasks that run while this one sleeps are not modelled.
- Clock.NextMidnight: total over all integers. On 9999-12-31, `now.date() + timedelta(days=1)` (bot.py:49, bot.py:58) raises OverflowError, because `datetime` stops at year 9999; the model has no upper end to the calendar.
- `total_seconds()` returns a float. The model uses exact integer microseconds.
- `WHEN` is undefined in bot.py, and nothing schedules `background_task`. The model takes `WHEN` as a parameter and runs the function as written.
- Background.DailyTask.Run: runs one loop iteration per given `Call`, a finite prefix of the endless `while True`; the loop's behaviour after the last given call is not stated.
- Schedule.LoopTrace: a handler that raises ends the trace with its outcome recorded. What the exception does to the rest of the process is not modelled.
