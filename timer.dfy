/** The countdown of `render_timer_and_progress`, on whole seconds: the time
    left is the limit minus the time elapsed since the exam started, never
    below zero; it is shown as hh:mm:ss, highlighted in the last five
    minutes, and the exam is finished once it reaches zero. */
module Timer {

  /** `max(0, time_limit * 60 - elapsed)`. */
  function RemainingSeconds(timeLimitMinutes: nat, elapsed: int): (r: nat)
    ensures r == 0 <==> elapsed >= timeLimitMinutes * 60
    ensures r > 0 ==> r + elapsed == timeLimitMinutes * 60
    ensures elapsed >= 0 ==> r <= timeLimitMinutes * 60
  {
    if timeLimitMinutes * 60 - elapsed > 0 then timeLimitMinutes * 60 - elapsed else 0
  }

  /** The hh:mm:ss display. */
  datatype Clock = Clock(hours: nat, minutes: nat, seconds: nat)

  function ClockSeconds(c: Clock): nat
  {
    c.hours * 3600 + c.minutes * 60 + c.seconds
  }

  /** Hours, then minutes of the remaining hour, then seconds of the
      remaining minute: the unique clock reading of `remaining` whose
      minutes and seconds are below 60. */
  function SplitClock(remaining: nat): (c: Clock)
    ensures c.minutes < 60 && c.seconds < 60
    ensures ClockSeconds(c) == remaining
  {
    Clock(remaining / 3600, (remaining % 3600) / 60, remaining % 60)
  }

  /** The display is highlighted from five minutes left. */
  predicate InWarningZone(remaining: nat)
  {
    remaining <= 300
  }

  /** The exam is finished once no time is left. */
  predicate Expired(remaining: nat)
  {
    remaining == 0
  }

  /** The highlight starts exactly when the clock shows 00:05:00 or less,
      and an expired exam shows 00:00:00. Stated for every well-formed
      reading, which `SplitClock` always returns. */
  lemma WarningMatchesClock(c: Clock)
    requires c.minutes < 60 && c.seconds < 60
    ensures InWarningZone(ClockSeconds(c)) <==>
              c.hours == 0 && (c.minutes < 5 || (c.minutes == 5 && c.seconds == 0))
    ensures Expired(ClockSeconds(c)) <==> c == Clock(0, 0, 0)
  {
  }

  /** Time left only shrinks as time passes, and the exam stays expired. */
  lemma RemainingMonotone(timeLimitMinutes: nat, e1: int, e2: int)
    requires e1 <= e2
    ensures RemainingSeconds(timeLimitMinutes, e2) <= RemainingSeconds(timeLimitMinutes, e1)
    ensures Expired(RemainingSeconds(timeLimitMinutes, e1)) ==> Expired(RemainingSeconds(timeLimitMinutes, e2))
  {
  }
}
