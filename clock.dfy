/**
 * The schedule clock of `schedule_restart`: from one captured `now` and one
 * `(hour, minute)` entry it builds the restart instant on `now`'s local date
 * and moves it one day on when it has already passed.
 *
 * Instants are integer microseconds since the Unix epoch (the resolution of a
 * Python `datetime`); local time is the fixed UTC+8 offset of Asia/Singapore,
 * which has no daylight-saving changes.
 */
module Clock {

  /** Microseconds since 1970-01-01T00:00:00Z. */
  type Instant = int

  const SECOND: int := 1_000_000
  const MINUTE: int := 60_000_000
  const HOUR: int := 3_600_000_000
  const DAY: int := 86_400_000_000
  /** Asia/Singapore is UTC+8 all year. */
  const UTC_OFFSET: int := 28_800_000_000
  /** The countdown starts 1800 seconds before the restart instant. */
  const COUNTDOWN_LEAD: int := 1_800_000_000

  /** One daily restart slot. */
  datatype Entry = Entry(hour: int, minute: int) {
    predicate Valid() { 0 <= hour < 24 && 0 <= minute < 60 }

    /** Microseconds after local midnight. */
    function TimeOfDay(): (t: int)
      requires Valid()
      ensures 0 <= t < DAY
    {
      hour * 3_600_000_000 + minute * 60_000_000
    }
  }

  /** An entry whose hour and minute are in range. */
  type Slot = e: Entry | e.Valid() witness Entry(0, 0)

  /** The configured slots, in the order the loop visits them. */
  const RESTART_TIMES: seq<Slot> := [Entry(0, 30), Entry(6, 30), Entry(12, 30), Entry(18, 30)]

  /** Number of the local calendar day holding `t`. */
  function LocalDate(t: Instant): int { (t + UTC_OFFSET) / DAY }

  /** Microseconds since local midnight at `t`. */
  function LocalTimeOfDay(t: Instant): int { (t + UTC_OFFSET) % DAY }

  /** Splitting a local reading into date and time of day is unique. */
  lemma LocalReading(t: Instant, date: int, tod: int)
    requires 0 <= tod < DAY && t + UTC_OFFSET == date * DAY + tod
    ensures LocalDate(t) == date && LocalTimeOfDay(t) == tod
  {
  }

  /**
   * `now.replace(hour=h, minute=m, second=0, microsecond=0)`: same local date
   * as `now`, wall-clock reading h:m:00.000000.
   */
  function AtTimeOfDay(now: Instant, e: Entry): (c: Instant)
    requires e.Valid()
    ensures LocalDate(c) == LocalDate(now) && LocalTimeOfDay(c) == e.TimeOfDay()
    ensures c - now == e.TimeOfDay() - LocalTimeOfDay(now)
  {
    LocalReading(now - LocalTimeOfDay(now) + e.TimeOfDay(), LocalDate(now), e.TimeOfDay());
    now - LocalTimeOfDay(now) + e.TimeOfDay()
  }

  /**
   * The instant the loop sleeps towards for entry `e`: the same-day slot, or
   * the next day's slot when the same-day one is strictly earlier than `now`.
   */
  function RestartInstant(now: Instant, e: Entry): (r: Instant)
    requires e.Valid()
    ensures now <= r < now + DAY
    ensures LocalTimeOfDay(r) == e.TimeOfDay()
    ensures LocalDate(r) == LocalDate(now) || LocalDate(r) == LocalDate(now) + 1
  {
    var c := AtTimeOfDay(now, e);
    if c < now then
      LocalReading(c + DAY, LocalDate(now) + 1, e.TimeOfDay());
      c + DAY
    else
      c
  }

  /** `restart_time - now`, kept exact in microseconds. */
  function WaitMicros(now: Instant, e: Entry): (w: int)
    requires e.Valid()
    ensures 0 <= w < DAY
    ensures w == 0 <==> LocalTimeOfDay(now) == e.TimeOfDay()
  {
    RestartInstant(now, e) - now
  }

  /** The argument of the pre-countdown sleep, `wait_time - 1800`. */
  function PreCountdownSleep(now: Instant, e: Entry): (d: int)
    requires e.Valid()
    ensures -COUNTDOWN_LEAD <= d < DAY - COUNTDOWN_LEAD
  {
    WaitMicros(now, e) - COUNTDOWN_LEAD
  }

  /** Two instants with the same local time of day less than a day apart coincide. */
  lemma SameTimeOfDayWithinADay(a: Instant, b: Instant)
    requires a <= b < a + DAY
    requires LocalTimeOfDay(a) == LocalTimeOfDay(b)
    ensures a == b
  {
    var da, db := LocalDate(a), LocalDate(b);
    assert a + UTC_OFFSET == da * DAY + LocalTimeOfDay(a);
    assert b + UTC_OFFSET == db * DAY + LocalTimeOfDay(b);
    assert b - a == (db - da) * DAY;
  }

  /**
   * The restart instant is THE next occurrence of the slot: every instant in
   * [now, now + 1 day) whose local reading is hour:minute:00.000000 is it.
   */
  lemma RestartInstantIsNextOccurrence(now: Instant, e: Entry, t: Instant)
    requires e.Valid()
    requires now <= t < now + DAY && LocalTimeOfDay(t) == e.TimeOfDay()
    ensures t == RestartInstant(now, e)
  {
    var r := RestartInstant(now, e);
    if t <= r {
      SameTimeOfDayWithinADay(t, r);
    } else {
      SameTimeOfDayWithinADay(r, t);
    }
  }

  /**
   * The slot is kept on `now`'s date exactly when it is not earlier than
   * `now`; otherwise it is the same reading exactly one day later.
   */
  lemma SameDayUnlessPassed(now: Instant, e: Entry)
    requires e.Valid()
    ensures var r := RestartInstant(now, e);
      (LocalTimeOfDay(now) <= e.TimeOfDay() ==> r == AtTimeOfDay(now, e) && LocalDate(r) == LocalDate(now)) &&
      (LocalTimeOfDay(now) > e.TimeOfDay() ==> r == AtTimeOfDay(now, e) + DAY && LocalDate(r) == LocalDate(now) + 1)
  {
    var c := AtTimeOfDay(now, e);
    if LocalTimeOfDay(now) > e.TimeOfDay() {
      LocalReading(c + DAY, LocalDate(now) + 1, e.TimeOfDay());
    }
  }

  /** The comparison is strict: `now` exactly on the slot keeps it, and the wait is zero. */
  lemma ExactSlotIsKept(now: Instant, e: Entry)
    requires e.Valid() && LocalTimeOfDay(now) == e.TimeOfDay()
    ensures AtTimeOfDay(now, e) == now
    ensures RestartInstant(now, e) == now && WaitMicros(now, e) == 0
  {
  }

  /** 2024-01-01T00:00:00+08:00. */
  const NEW_YEAR_2024: Instant := 1_704_038_400_000_000

  /** From 23:00 on 2024-01-01 the 00:30 slot wraps to 00:30 on 2024-01-02. */
  lemma LateEveningWrapsToNextDay()
    ensures RestartInstant(NEW_YEAR_2024 + 23 * HOUR, RESTART_TIMES[0]) == NEW_YEAR_2024 + DAY + 30 * MINUTE
  {
    LocalReading(NEW_YEAR_2024, 19723, 0);
    LocalReading(NEW_YEAR_2024 + 23 * HOUR, 19723, 23 * HOUR);
  }

  /** The earliest of the slots' restart instants (how the loop could have chosen, but does not). */
  function EarliestRestartInstant(now: Instant, entries: seq<Slot>): (r: Instant)
    requires |entries| > 0
    ensures exists i | 0 <= i < |entries| :: r == RestartInstant(now, entries[i])
    ensures forall i | 0 <= i < |entries| :: r <= RestartInstant(now, entries[i])
  {
    if |entries| == 1 then RestartInstant(now, entries[0])
    else
      var rest := EarliestRestartInstant(now, entries[1..]);
      var first := RestartInstant(now, entries[0]);
      assert forall i | 1 <= i < |entries| :: entries[i] == entries[1..][i - 1];
      if first <= rest then first else rest
  }

  /**
   * The loop takes the slots in list order, not the earliest first: at 00:31
   * on 2024-01-01 it first sleeps towards 00:30 on 2024-01-02, although the
   * 06:30 slot of 2024-01-01 comes sooner.
   */
  lemma ListOrderIsNotEarliest()
    ensures var now := NEW_YEAR_2024 + 31 * MINUTE;
      RestartInstant(now, RESTART_TIMES[0]) == NEW_YEAR_2024 + DAY + 30 * MINUTE &&
      EarliestRestartInstant(now, RESTART_TIMES) == NEW_YEAR_2024 + 6 * HOUR + 30 * MINUTE
  {
    var now := NEW_YEAR_2024 + 31 * MINUTE;
    LocalReading(now, 19723, 31 * MINUTE);
    var r1 := RestartInstant(now, RESTART_TIMES[1]);
    LocalReading(NEW_YEAR_2024 + 6 * HOUR + 30 * MINUTE, 19723, 6 * HOUR + 30 * MINUTE);
    RestartInstantIsNextOccurrence(now, RESTART_TIMES[1], NEW_YEAR_2024 + 6 * HOUR + 30 * MINUTE);
  }

  /** When `now` lies less than 30 minutes before the slot the pre-countdown sleep is negative. */
  lemma PreCountdownSleepCanBeNegative()
    ensures PreCountdownSleep(NEW_YEAR_2024 + 15 * MINUTE, RESTART_TIMES[0]) == -15 * MINUTE
  {
    LocalReading(NEW_YEAR_2024 + 15 * MINUTE, 19723, 15 * MINUTE);
  }
}
