/**
 * The firmware's main loop state: the real-time clock (RTC) as the one
 * authority on the current instant, its two writers (the GPS correction in
 * `loop` and the BLE write callback), and the redraw of the countdown
 * whenever the instant differs from the last one drawn.
 *
 * Both writers are modelled as sequential updates of the same state.
 * Parsing (RTClib's `DateTime` from a string, TinyGPS++ from NMEA) happens
 * outside the model: the model receives the instants those parsers produce.
 */
module Clock {
  import opened Uint32
  import opened SegmentCode
  import opened ShiftRegister
  import opened Countdown

  /** What `loop` reads from TinyGPS++: the time's validity and update flags, the year, and the fix as an instant. */
  datatype GpsFix = GpsFix(timeValid: bool, timeUpdated: bool, year: int, instant: U32)

  /** The one year whose fixes are trusted. */
  const EXPECTED_YEAR := 2021

  /** A fix that passes the validity, update and year checks. */
  predicate Plausible(fix: GpsFix) {
    fix.timeValid && fix.timeUpdated && fix.year == EXPECTED_YEAR
  }

  /** Whether `loop` adjusts the RTC to the fix: a plausible fix whose `uint32_t` difference from the RTC exceeds one. */
  predicate Corrects(rtc: U32, fix: GpsFix) {
    Plausible(fix) && Sub32(fix.instant, rtc) > 1
  }

  /** The RTC instant after the GPS step of `loop`. */
  function Reconciled(rtc: U32, fix: GpsFix): (r: U32)
    ensures r == rtc || r == fix.instant
    ensures !Plausible(fix) ==> r == rtc
    ensures r == (if Plausible(fix) && fix.instant != rtc && fix.instant != Add32(rtc, 1) then fix.instant else rtc)
  {
    CorrectsExactly(rtc, fix);
    if Corrects(rtc, fix) then fix.instant else rtc
  }

  /**
   * A plausible fix is skipped exactly when it equals the RTC or is one
   * second ahead of it (modulo 2^32); every other fix is written, in
   * either direction.
   */
  lemma CorrectsExactly(rtc: U32, fix: GpsFix)
    ensures Corrects(rtc, fix) <==> Plausible(fix) && fix.instant != rtc && fix.instant != Add32(rtc, 1)
  {
    var diff := Sub32(fix.instant, rtc);
    if fix.instant == Add32(rtc, 1) {
      SubAddInverse(rtc, 1);
    }
    if diff == 1 {
      assert fix.instant == Add32(rtc, 1);
    }
  }

  /** A fix earlier than the RTC is not ignored: the wrapped difference is huge, so it is written. */
  lemma EarlierFixApplied(rtc: U32, fix: GpsFix)
    requires Plausible(fix) && fix.instant < rtc
    requires !(fix.instant == 0 && rtc == MAX)
    ensures Reconciled(rtc, fix) == fix.instant
    ensures Sub32(fix.instant, rtc) > 1
  {
    CorrectsExactly(rtc, fix);
  }

  /** One second of drift is tolerated, two are corrected, and a fix from another year is never compared. */
  lemma ThresholdExamples(rtc: U32, instant: U32)
    ensures Sub32(instant, rtc) == 1 ==> Reconciled(rtc, GpsFix(true, true, 2021, instant)) == rtc
    ensures Sub32(instant, rtc) == 2 ==> Reconciled(rtc, GpsFix(true, true, 2021, instant)) == instant
    ensures Reconciled(rtc, GpsFix(true, true, 2020, instant)) == rtc
  {
  }

  /** Applying the same fix twice changes nothing the second time. */
  lemma ReconciledIdempotent(rtc: U32, fix: GpsFix)
    ensures Reconciled(Reconciled(rtc, fix), fix) == Reconciled(rtc, fix)
  {
  }

  /** A countdown the display can show: `showDate` is defined on its four fields. */
  predicate Displayable(d: Duration) {
    FrameDefined(d.days, d.hours, d.minutes, d.seconds)
  }

  /** The writes that draw a countdown. */
  function DurationTrace(d: Duration): seq<PinEvent>
    requires Displayable(d)
  {
    FrameTrace(d.days, d.hours, d.minutes, d.seconds)
  }

  /** Every countdown of fewer than 100 days can be shown. */
  lemma DisplayableBelow100Days(target: U32, now: U32)
    requires Sub32(target, now) < 100 * SECONDS_PER_DAY
    ensures Displayable(Remaining(target, now))
  {
    var d := Remaining(target, now);
    TwoDigitsDefined(d.seconds);
    TwoDigitsDefined(d.minutes);
    TwoDigitsDefined(d.hours);
    TwoDigitsDefined(d.days);
  }

  /**
   * One second past the target the count wraps to 49710 days, whose tens
   * digit 4971 reaches `postNumber` as byte 107: outside the segment table.
   */
  lemma WrappedCountdownUndisplayable(target: U32)
    requires target < MAX
    ensures !Displayable(Remaining(target, target + 1))
  {
    RemainingPastTarget(target);
  }

  /**
   * The count keeps falling after the wrap, and the frame becomes defined
   * again whenever the days' tens value, truncated to a byte, is in the
   * table: at 49639 days the tens value 4963 reaches `postNumber` as byte 99,
   * the 'c' glyph.
   */
  lemma WrappedCountdownReturns(target: U32)
    requires target <= MAX - (MODULUS - 49639 * SECONDS_PER_DAY)
    ensures Remaining(target, target + (MODULUS - 49639 * SECONDS_PER_DAY)) == Duration(49639, 0, 0, 0)
    ensures Displayable(Remaining(target, target + (MODULUS - 49639 * SECONDS_PER_DAY)))
    ensures DigitOf(ChunkBytes(49639, true)[1]) == Some(LETTER_C)
  {
    var now := target + (MODULUS - 49639 * SECONDS_PER_DAY);
    assert Sub32(target, now) == 49639 * SECONDS_PER_DAY;
    BreakdownUnique(Sub32(target, now), Duration(49639, 0, 0, 0));
    ChunkDigits(49639, true);
  }

  /** The state after one pass of `loop`, and the countdown it drew, if any. */
  datatype Pass = Pass(rtc: U32, lastSeen: U32, shown: Option<Duration>)

  /** One pass of `loop`: the GPS step, then a redraw if the RTC differs from the last instant drawn. */
  function LoopPass(target: U32, rtc: U32, lastSeen: U32, fix: GpsFix): (p: Pass)
    ensures p.lastSeen == p.rtc
    ensures p.shown.Some? <==> p.rtc != lastSeen
  {
    var now := Reconciled(rtc, fix);
    Pass(now, now, if now != lastSeen then Some(Remaining(target, now)) else None)
  }

  /** The pass only draws what the display can show. */
  predicate PassDisplayable(target: U32, rtc: U32, lastSeen: U32, fix: GpsFix) {
    var p := LoopPass(target, rtc, lastSeen, fix);
    p.shown.Some? ==> Displayable(p.shown.value)
  }

  /** The writes one pass makes to the display pins. */
  function ShownTrace(shown: Option<Duration>): seq<PinEvent>
    requires shown.Some? ==> Displayable(shown.value)
  {
    if shown.Some? then DurationTrace(shown.value) else []
  }

  /**
   * After a pass, the next pass draws nothing unless the GPS fix moves the
   * RTC: an unchanged instant is never redrawn.
   */
  lemma SecondPassQuiet(target: U32, rtc: U32, lastSeen: U32, fix: GpsFix, next: GpsFix)
    requires !Corrects(LoopPass(target, rtc, lastSeen, fix).rtc, next)
    ensures var p := LoopPass(target, rtc, lastSeen, fix);
      LoopPass(target, p.rtc, p.lastSeen, next) == Pass(p.rtc, p.rtc, None)
  {
  }

  /** The same fix seen again on the next pass redraws nothing. */
  lemma RepeatedFixQuiet(target: U32, rtc: U32, lastSeen: U32, fix: GpsFix)
    ensures var p := LoopPass(target, rtc, lastSeen, fix);
      LoopPass(target, p.rtc, p.lastSeen, fix).shown == None
  {
    ReconciledIdempotent(rtc, fix);
  }

  /** The device: the RTC's instant, the last instant drawn, the target and the display pins. */
  class CountdownClock {
    const target: U32
    /** The RTC's current instant, `rtc.now().unixtime()`. */
    var rtc: U32
    var lastSeenUnixTime: U32
    const display: Display

    /** `setup`: the target is fixed, the RTC holds its battery-backed instant, nothing has been drawn. */
    constructor (target: U32, rtcAtBoot: U32)
      ensures this.target == target && rtc == rtcAtBoot && lastSeenUnixTime == 0
      ensures fresh(display) && display.trace == [ClockLow, Data(false), LatchLow]
    {
      this.target := target;
      rtc := rtcAtBoot;
      lastSeenUnixTime := 0;
      display := new Display();
    }

    /** `CountdownCallbacks::onWrite`: a non-empty payload sets the RTC to the instant parsed from it, unconditionally. */
    method OnWrite(value: string, parse: string -> U32)
      modifies this
      ensures |value| == 0 ==> rtc == old(rtc)
      ensures |value| > 0 ==> rtc == parse(value)
      ensures lastSeenUnixTime == old(lastSeenUnixTime)
    {
      if |value| > 0 {
        var updated := parse(value);
        rtc := updated;
      }
    }

    /** The GPS step of `loop`: adjust the RTC to a plausible fix more than one second off. */
    method CorrectFromGps(fix: GpsFix)
      modifies this
      ensures rtc == Reconciled(old(rtc), fix)
      ensures lastSeenUnixTime == old(lastSeenUnixTime)
    {
      if fix.timeValid && fix.timeUpdated {
        if fix.year == EXPECTED_YEAR {
          var diff := Sub32(fix.instant, rtc);
          if diff > 1 {
            rtc := fix.instant;
          }
        }
      }
    }

    /** `printRemainingTime`: draw the time left until the target. */
    method PrintRemainingTime()
      requires Displayable(Remaining(target, rtc))
      modifies display
      ensures display.trace == old(display.trace) + DurationTrace(Remaining(target, rtc))
    {
      var d := Remaining(target, rtc);
      display.ShowDate(d.days, d.hours, d.minutes, d.seconds);
    }

    /** The end of `loop`: redraw only when the RTC's instant differs from the last one drawn. */
    method RedrawIfChanged()
      requires rtc != lastSeenUnixTime ==> Displayable(Remaining(target, rtc))
      modifies this, display
      ensures rtc == old(rtc) && lastSeenUnixTime == rtc
      ensures old(rtc) != old(lastSeenUnixTime) ==>
        display.trace == old(display.trace) + DurationTrace(Remaining(target, rtc))
      ensures old(rtc) == old(lastSeenUnixTime) ==> display.trace == old(display.trace)
    {
      var now := rtc;
      if now != lastSeenUnixTime {
        ghost var d := Remaining(target, now);
        PrintRemainingTime();
        assert display.trace == old(display.trace) + DurationTrace(d);
        lastSeenUnixTime := now;
      }
    }

    /** One pass of `loop`, given the fix TinyGPS++ holds after the bytes read in this pass. */
    method Loop(fix: GpsFix)
      requires PassDisplayable(target, rtc, lastSeenUnixTime, fix)
      modifies this, display
      ensures var p := LoopPass(target, old(rtc), old(lastSeenUnixTime), fix);
        rtc == p.rtc && lastSeenUnixTime == p.lastSeen &&
        display.trace == old(display.trace) + ShownTrace(p.shown)
    {
      CorrectFromGps(fix);
      RedrawIfChanged();
    }
  }
}
