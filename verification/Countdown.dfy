/**
 * The countdown of `printRemainingTime`: the `uint32_t` number of seconds
 * left until the target instant, split into days, hours, minutes and seconds.
 */
module Countdown {
  import opened Uint32

  /** Remaining time broken down for the display. */
  datatype Duration = Duration(days: nat, hours: nat, minutes: nat, seconds: nat)

  const SECONDS_PER_DAY := 86400

  /** The number of seconds a duration stands for. */
  function TotalSeconds(d: Duration): nat {
    d.days * SECONDS_PER_DAY + d.hours * 3600 + d.minutes * 60 + d.seconds
  }

  /** A breakdown in which every field below days is within its unit. */
  predicate Normalised(d: Duration) {
    d.seconds < 60 && d.minutes < 60 && d.hours < 24
  }

  /** The split by repeated division: total minutes, hours and days, each field the remainder. */
  function Breakdown(totalSeconds: U32): (d: Duration)
    ensures Normalised(d)
    ensures d.days <= 49710
  {
    var totalMinutes := totalSeconds / 60;
    var totalHours := totalMinutes / 60;
    var totalDays := totalHours / 24;
    Duration(totalDays, totalHours % 24, totalMinutes % 60, totalSeconds % 60)
  }

  /** The time left from `now` until `target`, with `uint32_t` wrap-around past the target. */
  function Remaining(target: U32, now: U32): (d: Duration)
    ensures Normalised(d)
    ensures now <= target ==> TotalSeconds(d) == target - now
    ensures now > target ==> TotalSeconds(d) == target - now + MODULUS
  {
    BreakdownReconstructs(Sub32(target, now));
    Breakdown(Sub32(target, now))
  }

  /** The breakdown loses nothing: its fields add back up to the total. */
  lemma BreakdownReconstructs(totalSeconds: U32)
    ensures TotalSeconds(Breakdown(totalSeconds)) == totalSeconds
  {
    var totalMinutes := totalSeconds / 60;
    var totalHours := totalMinutes / 60;
    var d := Breakdown(totalSeconds);
    assert totalSeconds == totalMinutes * 60 + d.seconds;
    assert totalMinutes == totalHours * 60 + d.minutes;
    assert totalHours == d.days * 24 + d.hours;
  }

  /** The breakdown is the only normalised duration with the given total. */
  lemma BreakdownUnique(totalSeconds: U32, d: Duration)
    requires Normalised(d) && TotalSeconds(d) == totalSeconds
    ensures d == Breakdown(totalSeconds)
  {
    var totalMinutes := d.days * 1440 + d.hours * 60 + d.minutes;
    assert totalSeconds == totalMinutes * 60 + d.seconds;
    assert totalSeconds / 60 == totalMinutes && totalSeconds % 60 == d.seconds;
    var totalHours := d.days * 24 + d.hours;
    assert totalMinutes == totalHours * 60 + d.minutes;
    assert totalMinutes / 60 == totalHours && totalMinutes % 60 == d.minutes;
    assert totalHours / 24 == d.days && totalHours % 24 == d.hours;
  }

  /** 90061 seconds left is one day, one hour, one minute and one second. */
  lemma RemainingExample(target: U32, now: U32)
    requires Sub32(target, now) == 90061
    ensures Remaining(target, now) == Duration(1, 1, 1, 1)
  {
  }

  /** At the target the countdown reads zero; one second later it wraps to 49710 days 06:28:15. */
  lemma RemainingPastTarget(target: U32)
    ensures Remaining(target, target) == Duration(0, 0, 0, 0)
    ensures target < MAX ==> Remaining(target, target + 1) == Duration(49710, 6, 28, 15)
  {
  }

  /** The target instant the firmware sets up: 2021-10-26 07:00:00 UTC as a Unix time. */
  const TARGET_UNIX_TIME: U32 := 1635231600

  /** A day before that target, at 2021-10-25 07:00:00 UTC, the countdown shows one full day. */
  lemma DayBeforeTarget()
    ensures Remaining(TARGET_UNIX_TIME, TARGET_UNIX_TIME - SECONDS_PER_DAY) == Duration(1, 0, 0, 0)
  {
  }
}
