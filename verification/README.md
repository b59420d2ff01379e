# ESP32 RTC/GPS countdown clock, modelled in Dafny

The firmware counts down to a fixed instant (2021-10-26 07:00:00 UTC). It
shows the time left as `DD.HH.MM.SS` on a chain of seven-segment digits
driven by shift registers. A DS1307 real-time clock (RTC) holds the current
instant. Two sources write to it:
- the main loop, from a GPS fix;
- a BLE write callback, from a date-time string.

The model covers the four parts of `src/main.cpp` that carry logic:

- **Segment code and shift protocol** (modules `SegmentCode`, `ShiftRegister`):
  - the lookup from a digit, blank, `'c'` or `'-'` to an 8-bit segment pattern;
  - the decimal point OR-ed into bit 7;
  - every byte clocked out most-significant bit first, as a trace of pin
    writes (`ClockLow`, `Data(b)`, `ClockHigh`, `LatchLow`, `LatchHigh`);
  - two-digit fields sent ones digit first;
  - the four fields sent in the order seconds, minutes, hours, days;
  - one latch pulse per frame.

  `Display` is a class whose `trace` field records every write.
  `PostNumber`, `ShowChunk` and `ShowDate` are methods that append to it.
  `PostNumber` keeps the source's bit loop.
- **Countdown** (module `Countdown`): `(target - now) mod 2^32`, split by
  `/ 60`, `/ 60`, `/ 24` and `%` into days, hours, minutes and seconds.
- **GPS correction** (module `Clock`): a fix counts only when it is valid,
  updated and from 2021. The RTC is then overwritten iff
  `(gps - rtc) mod 2^32 > 1`.
- **Remote override and redraw on change** (module `Clock`): the class
  `CountdownClock` holds the RTC instant, `lastSeenUnixTime`, the target and
  the display.
  - A non-empty BLE payload sets the RTC unconditionally.
  - `loop` redraws only when the RTC instant differs from the last one drawn.

Instants and differences are `U32`, with 32-bit wrap-around written out
(`Sub32`, `Add32`). Parsing is outside the model, and the model receives the
instants the parsers produce:
- the BLE payload becomes an instant through a function parameter `parse`
  (RTClib's `DateTime(const char*)`);
- a GPS fix arrives as a `GpsFix` record (TinyGPS++).

Behaviour stated as the code has it:

- The decimal point of each pair rides on the **ones** digit, which is the
  first byte shifted (`postNumber(twoDigits%10, trailingDot)`). On the
  display it stands after the ones digit of days, hours and minutes. The
  frame for 3 days 5 h 9 min 42 s is therefore `2 4 9. 0 5. 0 3. 0`.
- A GPS fix is skipped only when it equals the RTC or is exactly one second
  ahead of it, modulo 2^32. A fix that is *earlier* than the RTC gives a huge
  wrapped difference and **is** written. The correction is not forward-only.
- A remote payload is never rejected: any non-empty string is parsed and
  written. Nothing guards the RTC against the BLE callback and `loop` running
  at the same time.
- `postNumber` leaves `segments` uninitialised for any input outside the
  table. The model makes this a precondition.
  - `showChunk` truncates `twoDigits / 10` to a byte. A field of 100 or more
    is still defined while the tens value, modulo 256, hits a table entry:
    320 shows a blank tens place. A field like 1070 (tens value 107) is not
    defined.
  - One second past the target the countdown wraps to 49710 days, whose tens
    value 4971 reaches `postNumber` as byte 107, outside the table
    (`Clock.WrappedCountdownUndisplayable`). The count keeps falling, and the
    frame is defined again whenever the days' tens value, truncated to a byte,
    hits a table entry: first at 49639 days, where 4963 becomes byte 99 and the
    tens place of days shows `c` (`Clock.WrappedCountdownReturns`). Later
    windows follow at tens bytes 45 (`-`), 32 (blank) and 0-9.
  - Any countdown under 100 days is displayable (`Clock.DisplayableBelow100Days`).

## Model

| member | source | states |
|---|---|---|
| `Uint32.Add32` | src/main.cpp:207 | a helper for stating the GPS threshold (`rtc + 1` modulo 2^32, used by `Clock.CorrectsExactly`); it models no expression of the source; the sum when it fits, otherwise the sum minus 2^32 |
| `Uint32.Sub32` | src/main.cpp:174 | `uint32_t` subtraction: the plain difference when no wrap occurs, otherwise the difference plus 2^32; adding the subtrahend back gives the minuend modulo 2^32 |
| `SegmentCode.ToByte` | src/main.cpp:151-152 | the conversion of `showChunk`'s digit values to `byte` keeps values below 256 and is congruent to its input modulo 256 |
| `SegmentCode.InTable` | src/main.cpp:117-134 | the case set of the segment switch (digits 0-9, `' '`, `'c'`, `'-'`); every other byte leaves `segments` uninitialised, so it is the precondition of `SegmentsOf` and `Display.PostNumber`; `SegmentsInjective` and `DigitOfEncode` characterise it |
| `SegmentCode.ChunkDefined` | src/main.cpp:149-153 | `showChunk` is defined when both bytes it hands to `postNumber` are in the switch's case set; `TwoDigitsDefined` shows every field 0-99 qualifies and `LargeFieldsLeaveDigits` shows 1070 does not |
| `SegmentCode.SegmentsOf` | src/main.cpp:108-134 | the segment switch: every glyph in the table has bit 7 (the decimal point) clear, and only the blank lights no segment |
| `SegmentCode.Encode` | src/main.cpp:136 | the byte sent has bit 7 set iff `decimal`, and its other seven bits are the glyph's table entry |
| `SegmentCode.DigitOf` | src/main.cpp:119-134 | reading a byte back through the table: any glyph it returns is in the table and has exactly the byte's segments, ignoring the dot |
| `SegmentCode.SegmentsInjective` | src/main.cpp:119-134 | no two glyphs of the table share a segment pattern |
| `SegmentCode.DigitOfEncode` | src/main.cpp:117-136 | every table glyph is read back from its encoded byte, with or without the dot, and the dot is lit iff requested |
| `SegmentCode.ChunkBytes` | src/main.cpp:149-153 | `showChunk` sends two bytes; only the first (ones digit) may carry the dot, and carries it iff `trailingDot` |
| `SegmentCode.ChunkDigits` | src/main.cpp:151-152 | the first byte of a chunk shows `v % 10`, the second shows `v / 10` truncated to a byte |
| `SegmentCode.TwoDigitsDefined` | src/main.cpp:117-134 | every field 0-99 keeps both `postNumber` calls inside the table |
| `SegmentCode.DecodeChunk` | src/main.cpp:149-153 | reading a pair of bytes back as a two-digit field yields at most 99 |
| `SegmentCode.ChunkRoundTrip` | src/main.cpp:149-153 | for 0-99 the pair of bytes reads back as `10 * tens + ones == v` |
| `SegmentCode.LargeFieldsLeaveDigits` | src/main.cpp:117-134 | field 320 shows a blank tens place; field 1070 hands `postNumber` a byte outside the table |
| `ShiftRegister.BitsTrace` | src/main.cpp:139-146 | the reference definition of the writes made by the first k passes of the bit loop; `BitsTraceAt` gives each of its 3k writes in closed form |
| `ShiftRegister.ByteTrace` | src/main.cpp:139-146 | the writes of one full `postNumber` loop; `ByteTraceShape` and `ByteTraceRoundTrip` characterise them (24 writes, MSB first, packing back into the byte) |
| `ShiftRegister.BytesTrace` | src/main.cpp:139-146 | the writes of successive `postNumber` calls, first byte first; `BytesTraceLength`, `BytesTraceLeavesLatch`, `BytesTraceClockEdges` and `WireRoundTrip` characterise them |
| `ShiftRegister.BitsTraceStep` | src/main.cpp:141-145 | one pass of the bit loop appends clock low, the data bit `segments & 1 << (7 - x)`, clock high |
| `ShiftRegister.BitsTraceAt` | src/main.cpp:139-146 | after k passes there are 3k writes, and write i is clock low, data bit `7 - i/3`, or clock high according to `i % 3` |
| `ShiftRegister.ByteTraceShape` | src/main.cpp:139-146 | a byte is 24 writes: for bit x = 0..7, clock low, data = bit 7 - x, clock high (MSB first, one rising edge per bit) |
| `ShiftRegister.BitsTraceData` | src/main.cpp:142 | the data line carries the pattern's bits from the most significant down |
| `ShiftRegister.ByteTraceRoundTrip` | src/main.cpp:139-146 | exactly 8 data bits per byte, and shifting them into a register MSB first rebuilds the byte |
| `ShiftRegister.ChunkTrace` | src/main.cpp:151-152 | proof helper for `Display.ShowChunk`: the writes of the two encoded bytes, ones byte first, are the writes of the chunk's byte pair |
| `ShiftRegister.BytesTraceLength` | src/main.cpp:139-146 | n bytes take 24n writes |
| `ShiftRegister.BytesTraceLeavesLatch` | src/main.cpp:139-146 | shifting bytes never writes the latch line |
| `ShiftRegister.BitsTraceClockEdges` | src/main.cpp:139-146 | k passes of the bit loop raise the clock exactly k times |
| `ShiftRegister.BytesTraceClockEdges` | src/main.cpp:139-146 | n bytes raise the clock exactly 8n times |
| `ShiftRegister.WireRoundTrip` | src/main.cpp:139-146 | the data bits of any byte sequence, cut into groups of eight, give back exactly those bytes |
| `ShiftRegister.FrameDefined` | src/main.cpp:161-164 | `showDate` is defined when each of its four `showChunk` calls is; the precondition of `FrameBytes`, `FrameTrace` and `Display.ShowDate`; `FrameRoundTrip` shows fields 0-99 qualify |
| `ShiftRegister.FrameBytes` | src/main.cpp:156-164 | a frame is eight bytes: seconds, minutes, hours, days, each as its chunk |
| `ShiftRegister.FrameDots` | src/main.cpp:161-164 | the decimal point is lit on bytes 2, 4 and 6 only: the ones digits of minutes, hours and days |
| `ShiftRegister.FrameBytesTrace` | src/main.cpp:161-164 | a frame's writes are those of its four chunks in the order seconds, minutes, hours, days |
| `ShiftRegister.FrameTrace` | src/main.cpp:161-170 | the reference definition of `showDate`'s writes: the eight frame bytes, then latch low and latch high; `FrameShape` and `FrameRoundTrip` characterise it |
| `ShiftRegister.FrameTraceSplit` | src/main.cpp:161-170 | proof helper for `Display.ShowDate`: four chunks followed by latch low and latch high are exactly a frame's writes |
| `ShiftRegister.FrameShape` | src/main.cpp:156-171 | a frame is 194 writes with 64 clock rising edges and one latch rising edge, which is the last write; the latch never rises earlier |
| `ShiftRegister.FrameRoundTrip` | src/main.cpp:156-164 | for fields 0-99, the data bits read back pair by pair give seconds, minutes, hours and days in that order |
| `ShiftRegister.FrameExample` | src/main.cpp:161-164 | 3 d 5 h 9 min 42 s is sent as 2, 4, 9 with dot, 0, 5 with dot, 0, 3 with dot, 0 |
| `ShiftRegister.Display.constructor` | src/main.cpp:72-74 | `setup` drives clock, data and latch low |
| `ShiftRegister.Display.PostNumber` | src/main.cpp:100-147 | for a glyph in the table, appends exactly the 24 writes that clock out its encoded byte MSB first |
| `ShiftRegister.Display.ShowChunk` | src/main.cpp:149-153 | appends the writes of the ones byte (with the dot) and then the tens byte |
| `ShiftRegister.Display.ShowDate` | src/main.cpp:156-171 | appends the writes of the whole frame: four chunks, then one latch pulse |
| `Countdown.Breakdown` | src/main.cpp:175-181 | seconds < 60, minutes < 60, hours < 24, and days at most 49710 for any `uint32_t` total |
| `Countdown.BreakdownReconstructs` | src/main.cpp:175-181 | `days*86400 + hours*3600 + minutes*60 + seconds` equals the total |
| `Countdown.BreakdownUnique` | src/main.cpp:175-181 | any normalised duration with the same total is the breakdown, so the split is the only correct one |
| `Countdown.Remaining` | src/main.cpp:174-181 | the countdown is normalised and totals `target - now`, or `target - now + 2^32` once `now` is past the target |
| `Countdown.RemainingExample` | src/main.cpp:174-181 | 90061 seconds left is 1 day, 1 hour, 1 minute, 1 second |
| `Countdown.RemainingPastTarget` | src/main.cpp:174-181 | zero at the target; one second later, 49710 days 06:28:15 |
| `Countdown.DayBeforeTarget` | src/main.cpp:54-55 | one day before 2021-10-26 07:00:00 UTC (Unix time 1635231600) the countdown is one day exactly |
| `Clock.Plausible` | src/main.cpp:201-203 | the guard on a fix: time valid, time updated, and year 2021 |
| `Clock.Corrects` | src/main.cpp:201-209 | the write condition: a plausible fix whose wrapped difference from the RTC exceeds 1; `CorrectsExactly` characterises it |
| `Clock.Reconciled` | src/main.cpp:201-213 | the GPS step sets the RTC to the fix exactly when the fix is valid, updated, from 2021, and neither equal to the RTC nor one second ahead of it (mod 2^32); otherwise the RTC is left as it is |
| `Clock.CorrectsExactly` | src/main.cpp:201-212 | a fix is written iff it is plausible and neither equal to the RTC nor one second ahead of it (mod 2^32) |
| `Clock.EarlierFixApplied` | src/main.cpp:207-212 | a plausible fix earlier than the RTC has a wrapped difference above 1 and is written; the only exception is the wrap from `0xFFFFFFFF` to 0 |
| `Clock.ThresholdExamples` | src/main.cpp:201-212 | a difference of 1 is not written, a difference of 2 is, and a fix from 2020 never is |
| `Clock.ReconciledIdempotent` | src/main.cpp:207-212 | applying the same fix twice changes nothing the second time |
| `Clock.Displayable` | src/main.cpp:185 | `printRemainingTime`'s call of `showDate` is defined on the countdown's four fields; `DisplayableBelow100Days` shows it holds under 100 days, `WrappedCountdownUndisplayable` where it fails and `WrappedCountdownReturns` where it holds again |
| `Clock.DisplayableBelow100Days` | src/main.cpp:149-153 | every countdown under 100 days keeps `showDate` inside the segment table |
| `Clock.WrappedCountdownUndisplayable` | src/main.cpp:173-185 | one second past the target, `showDate` is handed a days field outside the table |
| `Clock.WrappedCountdownReturns` | src/main.cpp:149-185 | once the countdown reads 49639 days (6157696 s, about 71 days, past the target) it is displayable again, with the days' tens place drawn as `c` (tens value 4963 truncated to byte 99) |
| `Clock.LoopPass` | src/main.cpp:201-222 | after a pass `lastSeenUnixTime` equals the RTC instant, and a countdown was drawn iff that instant differs from the previous `lastSeenUnixTime` |
| `Clock.PassDisplayable` | src/main.cpp:219-220 | the frame a pass draws, if it draws one, is defined; the precondition of `CountdownClock.Loop`; it fails for a pass that redraws just after the target (`WrappedCountdownUndisplayable`) |
| `Clock.SecondPassQuiet` | src/main.cpp:217-222 | a pass that does not move the RTC draws nothing and changes nothing |
| `Clock.RepeatedFixQuiet` | src/main.cpp:201-222 | the same GPS fix seen on the next pass draws nothing |
| `Clock.CountdownClock.constructor` | src/main.cpp:53-74 | the target is fixed, the RTC holds its boot-time instant, `lastSeenUnixTime` starts at 0, and the pins start low |
| `Clock.CountdownClock.OnWrite` | src/main.cpp:33-50 | an empty payload changes nothing; a non-empty one sets the RTC to the parsed instant, even an earlier one; `lastSeenUnixTime` is untouched |
| `Clock.CountdownClock.CorrectFromGps` | src/main.cpp:201-215 | the RTC becomes `Reconciled(old rtc, fix)`; `lastSeenUnixTime` is untouched |
| `Clock.CountdownClock.PrintRemainingTime` | src/main.cpp:173-186 | appends the frame for `Remaining(target, rtc)` to the pins |
| `Clock.CountdownClock.RedrawIfChanged` | src/main.cpp:217-222 | draws the countdown iff the RTC instant differs from `lastSeenUnixTime`, after which the two are equal; the RTC is untouched |
| `Clock.CountdownClock.Loop` | src/main.cpp:190-223 | one pass of `loop` leaves the RTC and `lastSeenUnixTime` as `LoopPass` says and appends exactly the frame it draws, if any |

## Left out

- BLE server setup and advertising (src/main.cpp:76-94): I/O only.
- Serial logging and `printf` output (src/main.cpp:39-48, 183, 210-211): I/O only.
- Reading and parsing GPS bytes (src/main.cpp:191-199): TinyGPS++ is not part of this model. A pass receives the fix the library holds as a `GpsFix`. That includes the year, and the instant that RTClib would parse from the formatted string. Nothing models the library clearing its "updated" flag when fields are read.
- RTClib's `DateTime` parsing, `unixtime()` and the DS1307 registers: RTClib is not part of this model. A remote payload becomes an instant through the `parse` parameter. The RTC stores any `uint32_t` instant exactly; the DS1307's 2000-2099 year range is not modelled. RTClib's string parsing has no failure path, so neither does the model: a malformed string still writes whatever it parses to.
- The build-time `__DATE__`/`__TIME__` fallback and `rtc.begin`/`isrunning` (src/main.cpp:57-67): hardware start-up. The constructor takes the RTC's boot-time instant and the target as parameters. `Countdown.TARGET_UNIX_TIME` records the target the firmware uses.
- `delay(1)` (src/main.cpp:144, 169): this is setup and hold timing. The trace keeps only the order of pin writes.
- The RTC keeps ticking on its own while a pass runs. `loop` reads `rtc.now()` three times (src/main.cpp:174, 207, 217). The model assumes one pass sees a single instant.
- The RTC advancing between passes: in `CountdownClock` only `OnWrite` and `CorrectFromGps` change `rtc`, so the passage of time between two calls of `Loop` is the caller assigning `rtc`. Without that, a pass with an implausible fix never draws again. `Clock.LoopPass` takes the RTC instant as an argument and is unaffected.
- Concurrency between the BLE callback and `loop`: the code has no locking. The model treats both writers as sequential updates of the same state, so a torn or interleaved write is not represented.
- `showChunk`/`showDate` take C `int`s. The model takes `nat`, because every caller passes a `uint32_t` value of at most 49710.

