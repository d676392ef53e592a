/** Integer model of the UTC wall clock that the daily task reads and sleeps on.
    One tick is one microsecond, the resolution of Python's `datetime`; an
    instant is a number of ticks since the Unix epoch. For the positive
    divisor `Day`, Dafny's `/` rounds down and `%` lies in `[0, Day)`, which
    is the floor-based day arithmetic behind `datetime.date()`. */
module Clock {

  const Second: int := 1_000_000
  const Day: int := 86_400_000_000

  /** A `datetime.time` value: ticks since midnight. */
  type TimeOfDay = t: int | 0 <= t < Day

  /** `t.time()`: how far `t` lies past its own midnight. */
  function TimeOf(t: int): (r: TimeOfDay)
    ensures t - r == Midnight(t)
  {
    t % Day
  }

  /** `datetime.combine(t.date(), time(0))`: the midnight that starts `t`'s day. */
  function Midnight(t: int): (m: int)
    ensures m % Day == 0 && m <= t < m + Day
  {
    t - t % Day
  }

  /** A multiple of `Day` that lies at most a day before `t` is `t`'s midnight. */
  lemma MidnightUnique(t: int, m: int)
    requires m % Day == 0 && m <= t < m + Day
    ensures Midnight(t) == m && TimeOf(t) == t - m
  {
    var q := m / Day;
    assert m == q * Day;
    var p := t / Day;
    assert t == p * Day + t % Day;
    assert (p - q) * Day == m - t + t % Day;
    assert -Day < (p - q) * Day < Day;
    assert p == q;
  }

  /** `datetime.combine(t.date(), at)`: time of day `at` on `t`'s day. */
  function Combine(t: int, at: TimeOfDay): (r: int)
    ensures Midnight(r) == Midnight(t) && TimeOf(r) == at
  {
    MidnightUnique(Midnight(t) + at, Midnight(t));
    Midnight(t) + at
  }

  /** `datetime.combine(t.date() + timedelta(days=1), time(0))`: the next midnight. */
  function NextMidnight(t: int): (r: int)
    ensures t < r <= t + Day
    ensures TimeOf(r) == 0 && Midnight(r) == Midnight(t) + Day
  {
    MidnightUnique(Midnight(t) + Day, Midnight(t) + Day);
    Midnight(t) + Day
  }

  /** The clock after `asyncio.sleep(s)` starting at `clock`: a non-positive
      duration yields without advancing the clock. */
  function Advance(clock: int, s: int): (c: int)
    ensures c >= clock
    ensures s <= 0 ==> c == clock
    ensures s >= 0 ==> c == clock + s
  {
    if s <= 0 then clock else clock + s
  }
}
