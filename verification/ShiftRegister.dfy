/**
 * The three-wire protocol that drives the chain of shift registers behind the
 * display: every byte goes out most-significant bit first, one clock rising
 * edge per bit, and one latch rising edge publishes a whole frame.
 *
 * The pins are modelled as the sequence of writes made to them; the delays
 * between writes are timing only and do not appear.
 */
module ShiftRegister {
  import opened SegmentCode

  /** One `digitalWrite` to the clock, data or latch line. */
  datatype PinEvent = ClockLow | ClockHigh | Data(high: bool) | LatchLow | LatchHigh

  /** Bit i of a pattern, as `segments & 1 << i` tests it (the data line goes high when it is set). */
  predicate Bit(s: bv8, i: bv8)
    requires i < 8
  {
    s & (1 << i) != 0
  }

  /** The writes made by the first k passes of `postNumber`'s bit loop. */
  function BitsTrace(s: bv8, k: bv8): seq<PinEvent>
    requires k <= 8
    decreases k
  {
    if k == 0 then [] else BitsTrace(s, k - 1) + [ClockLow, Data(Bit(s, 8 - k)), ClockHigh]
  }

  /** The number of passes of the bit loop. */
  const BITS_PER_BYTE: bv8 := 8

  /** One pass of the bit loop appends clock low, the data bit, clock high. */
  lemma BitsTraceStep(t: seq<PinEvent>, s: bv8, x: bv8)
    requires x < 8
    ensures t + BitsTrace(s, x) + [ClockLow] + [Data(s & (1 << (7 - x)) != 0)] + [ClockHigh] == t + BitsTrace(s, x + 1)
  {
    assert BitsTrace(s, x + 1) == BitsTrace(s, x) + [ClockLow, Data(Bit(s, 7 - x)), ClockHigh];
  }

  /** The writes that shift one byte out. */
  function ByteTrace(s: bv8): seq<PinEvent> {
    BitsTrace(s, BITS_PER_BYTE)
  }

  /** The writes that shift a sequence of bytes out, first byte first. */
  function BytesTrace(bs: seq<bv8>): seq<PinEvent> {
    if bs == [] then [] else ByteTrace(bs[0]) + BytesTrace(bs[1..])
  }

  /** The values put on the data line, in order. */
  function DataBits(t: seq<PinEvent>): seq<bool> {
    if t == [] then []
    else (if t[0].Data? then [t[0].high] else []) + DataBits(t[1..])
  }

  /** Assembles bits received most-significant first into a byte, as the shift register does. */
  function Pack(bits: seq<bool>): bv8 {
    if bits == [] then 0
    else (Pack(bits[..|bits| - 1]) << 1) | (if bits[|bits| - 1] then 1 else 0)
  }

  /** Splits the data bits of a transmission into bytes, eight bits each. */
  function WireBytes(bits: seq<bool>): seq<bv8> {
    if |bits| < 8 then [] else [Pack(bits[..8])] + WireBytes(bits[8..])
  }

  /** The k most significant bits of a pattern, most significant first. */
  function MsbBits(s: bv8, k: bv8): seq<bool>
    requires k <= 8
    decreases k
  {
    if k == 0 then [] else MsbBits(s, k - 1) + [Bit(s, 8 - k)]
  }

  /** The event the bit loop writes at position i: clock low, the data bit, clock high. */
  function EventAt(s: bv8, i: nat): PinEvent
    requires i < 24
  {
    if i % 3 == 0 then ClockLow else if i % 3 == 1 then Data(Bit(s, 7 - (i / 3) as bv8)) else ClockHigh
  }

  // ---- Lemmas about one byte ----

  lemma {:induction false} BitsTraceAt(s: bv8, k: bv8)
    requires k <= 8
    decreases k
    ensures |BitsTrace(s, k)| == 3 * k as int
    ensures forall i :: 0 <= i < 3 * k as int ==> BitsTrace(s, k)[i] == EventAt(s, i)
  {
    if k > 0 {
      BitsTraceAt(s, k - 1);
    }
  }

  /**
   * One byte is 24 writes: for bit x (x = 0 first) the clock goes low, the
   * data line takes bit 7 - x of the pattern, and the clock rises.
   */
  lemma ByteTraceShape(s: bv8)
    ensures |ByteTrace(s)| == 24
    ensures forall i :: 0 <= i < 24 ==> ByteTrace(s)[i] == EventAt(s, i)
  {
    BitsTraceAt(s, 8);
  }

  lemma {:induction false} DataBitsAppend(a: seq<PinEvent>, b: seq<PinEvent>)
    ensures DataBits(a + b) == DataBits(a) + DataBits(b)
  {
    if a == [] {
      assert a + b == b;
    } else {
      assert (a + b)[1..] == a[1..] + b;
      DataBitsAppend(a[1..], b);
    }
  }

  lemma {:induction false} BitsTraceData(s: bv8, k: bv8)
    requires k <= 8
    decreases k
    ensures DataBits(BitsTrace(s, k)) == MsbBits(s, k)
  {
    if k > 0 {
      BitsTraceData(s, k - 1);
      var step := [ClockLow, Data(Bit(s, 8 - k)), ClockHigh];
      DataBitsAppend(BitsTrace(s, k - 1), step);
      assert DataBits(step) == [Bit(s, 8 - k)] by {
        assert DataBits(step[2..]) == [] by {
          assert step[2..][1..] == [];
        }
        assert step[1..][1..] == step[2..];
      }
    }
  }

  /** Shifting one more bit in: the step the receiving register takes on each clock edge. */
  lemma PackStep(s: bv8, k: bv8)
    requires 0 < k <= 8
    ensures ((s >> (9 - k)) << 1) | (if Bit(s, 8 - k) then 1 else 0) == s >> (8 - k)
  {
  }

  lemma {:induction false} PackMsbBits(s: bv8, k: bv8)
    requires k <= 8
    decreases k
    ensures |MsbBits(s, k)| == k as int
    ensures Pack(MsbBits(s, k)) == s >> (8 - k)
  {
    if k > 0 {
      PackMsbBits(s, k - 1);
      var bits := MsbBits(s, k);
      assert bits[..|bits| - 1] == MsbBits(s, k - 1);
      PackStep(s, k);
    }
  }

  /**
   * `postNumber` puts exactly eight bits on the data line, and the register
   * that samples them on the clock edges ends up holding the pattern itself.
   */
  lemma ByteTraceRoundTrip(s: bv8)
    ensures |DataBits(ByteTrace(s))| == 8
    ensures Pack(DataBits(ByteTrace(s))) == s
  {
    BitsTraceData(s, 8);
    PackMsbBits(s, 8);
  }

  // ---- Lemmas about sequences of bytes ----

  lemma {:induction false} BytesTraceAppend(a: seq<bv8>, b: seq<bv8>)
    ensures BytesTrace(a + b) == BytesTrace(a) + BytesTrace(b)
  {
    if a == [] {
      assert a + b == b;
    } else {
      assert (a + b)[1..] == a[1..] + b;
      BytesTraceAppend(a[1..], b);
    }
  }

  lemma BytesTracePair(a: bv8, b: bv8)
    ensures BytesTrace([a, b]) == ByteTrace(a) + ByteTrace(b)
  {
    calc {
      BytesTrace([a, b]);
      ByteTrace(a) + BytesTrace([b]);
      { assert [a, b][1..] == [b]; }
      ByteTrace(a) + ByteTrace(b) + BytesTrace([]);
      { assert [b][1..] == []; }
      ByteTrace(a) + ByteTrace(b);
    }
  }

  /** Shifting a chunk's two bytes one after the other appends the chunk's writes. */
  lemma ChunkTrace(t: seq<PinEvent>, twoDigits: nat, trailingDot: bool)
    requires ChunkDefined(twoDigits)
    ensures t + ByteTrace(Encode(ToByte(twoDigits % 10), trailingDot)) + ByteTrace(Encode(ToByte(twoDigits / 10), false))
         == t + BytesTrace(ChunkBytes(twoDigits, trailingDot))
  {
    var a, b := Encode(ToByte(twoDigits % 10), trailingDot), Encode(ToByte(twoDigits / 10), false);
    BytesTracePair(a, b);
    assert t + ByteTrace(a) + ByteTrace(b) == t + (ByteTrace(a) + ByteTrace(b));
  }

  lemma {:induction false} BytesTraceLength(bs: seq<bv8>)
    ensures |BytesTrace(bs)| == 24 * |bs|
  {
    if bs != [] {
      ByteTraceShape(bs[0]);
      BytesTraceLength(bs[1..]);
    }
  }

  /** Shifting bytes out only ever touches the clock and data lines: the latch never moves mid-frame. */
  lemma {:induction false} BytesTraceLeavesLatch(bs: seq<bv8>)
    ensures LatchLow !in BytesTrace(bs) && LatchHigh !in BytesTrace(bs)
  {
    if bs != [] {
      ByteTraceShape(bs[0]);
      BytesTraceLeavesLatch(bs[1..]);
    }
  }

  /** Each byte costs eight clock rising edges. */
  lemma {:induction false} BytesTraceClockEdges(bs: seq<bv8>)
    ensures multiset(BytesTrace(bs))[ClockHigh] == 8 * |bs|
  {
    if bs != [] {
      BitsTraceClockEdges(bs[0], 8);
      BytesTraceClockEdges(bs[1..]);
    }
  }

  lemma {:induction false} BitsTraceClockEdges(s: bv8, k: bv8)
    requires k <= 8
    decreases k
    ensures multiset(BitsTrace(s, k))[ClockHigh] == k as int
  {
    if k > 0 {
      BitsTraceClockEdges(s, k - 1);
    }
  }

  /** What a listener on the data line reads back, eight bits at a time, is exactly the bytes sent. */
  lemma {:induction false} WireRoundTrip(bs: seq<bv8>)
    ensures |DataBits(BytesTrace(bs))| == 8 * |bs|
    ensures WireBytes(DataBits(BytesTrace(bs))) == bs
  {
    if bs != [] {
      var head := DataBits(ByteTrace(bs[0]));
      var rest := DataBits(BytesTrace(bs[1..]));
      DataBitsAppend(ByteTrace(bs[0]), BytesTrace(bs[1..]));
      ByteTraceRoundTrip(bs[0]);
      WireRoundTrip(bs[1..]);
      var all := head + rest;
      assert all[..8] == head;
      assert all[8..] == rest;
    }
  }

  // ---- The display frame ----

  /** `showDate` is defined when each of its four `showChunk` calls is. */
  predicate FrameDefined(days: nat, hours: nat, minutes: nat, seconds: nat) {
    ChunkDefined(seconds) && ChunkDefined(minutes) && ChunkDefined(hours) && ChunkDefined(days)
  }

  /** The eight bytes of a frame, in shifting order: seconds, minutes, hours, days, ones digit first. */
  function FrameBytes(days: nat, hours: nat, minutes: nat, seconds: nat): (r: seq<bv8>)
    requires FrameDefined(days, hours, minutes, seconds)
    ensures |r| == 8
  {
    ChunkBytes(seconds, false) + ChunkBytes(minutes, true) + ChunkBytes(hours, true) + ChunkBytes(days, true)
  }

  /** The decimal point is lit on bytes 2, 4 and 6 only: the ones digits of minutes, hours and days. */
  lemma FrameDots(days: nat, hours: nat, minutes: nat, seconds: nat)
    requires FrameDefined(days, hours, minutes, seconds)
    ensures forall i :: 0 <= i < 8 ==> (HasDot(FrameBytes(days, hours, minutes, seconds)[i]) <==> i == 2 || i == 4 || i == 6)
  {
  }

  /** A frame's writes are those of its four chunks, one after the other. */
  lemma FrameBytesTrace(days: nat, hours: nat, minutes: nat, seconds: nat)
    requires FrameDefined(days, hours, minutes, seconds)
    ensures BytesTrace(FrameBytes(days, hours, minutes, seconds)) ==
      BytesTrace(ChunkBytes(seconds, false)) + BytesTrace(ChunkBytes(minutes, true)) +
      BytesTrace(ChunkBytes(hours, true)) + BytesTrace(ChunkBytes(days, true))
  {
    var s, m, h, d := ChunkBytes(seconds, false), ChunkBytes(minutes, true), ChunkBytes(hours, true), ChunkBytes(days, true);
    BytesTraceAppend(s, m);
    BytesTraceAppend(s + m, h);
    BytesTraceAppend(s + m + h, d);
  }

  /** The writes `showDate` makes: the eight bytes, then the latch pulled low and raised. */
  function FrameTrace(days: nat, hours: nat, minutes: nat, seconds: nat): seq<PinEvent>
    requires FrameDefined(days, hours, minutes, seconds)
  {
    BytesTrace(FrameBytes(days, hours, minutes, seconds)) + [LatchLow, LatchHigh]
  }

  /** Shifting the four chunks and pulsing the latch appends a frame's writes. */
  lemma FrameTraceSplit(t: seq<PinEvent>, days: nat, hours: nat, minutes: nat, seconds: nat)
    requires FrameDefined(days, hours, minutes, seconds)
    ensures t + BytesTrace(ChunkBytes(seconds, false)) + BytesTrace(ChunkBytes(minutes, true))
              + BytesTrace(ChunkBytes(hours, true)) + BytesTrace(ChunkBytes(days, true)) + [LatchLow] + [LatchHigh]
         == t + FrameTrace(days, hours, minutes, seconds)
  {
    FrameBytesTrace(days, hours, minutes, seconds);
    ConcatFrame(t, BytesTrace(ChunkBytes(seconds, false)), BytesTrace(ChunkBytes(minutes, true)),
                BytesTrace(ChunkBytes(hours, true)), BytesTrace(ChunkBytes(days, true)));
  }

  lemma ConcatFrame(t: seq<PinEvent>, s: seq<PinEvent>, m: seq<PinEvent>, h: seq<PinEvent>, d: seq<PinEvent>)
    ensures t + s + m + h + d + [LatchLow] + [LatchHigh] == t + (s + m + h + d + [LatchLow, LatchHigh])
  {
  }

  /**
   * A frame is 192 bit writes with 64 clock rising edges, and then exactly
   * one latch rising edge, as the very last write.
   */
  lemma FrameShape(days: nat, hours: nat, minutes: nat, seconds: nat)
    requires FrameDefined(days, hours, minutes, seconds)
    ensures |FrameTrace(days, hours, minutes, seconds)| == 194
    ensures multiset(FrameTrace(days, hours, minutes, seconds))[ClockHigh] == 64
    ensures multiset(FrameTrace(days, hours, minutes, seconds))[LatchHigh] == 1
    ensures FrameTrace(days, hours, minutes, seconds)[193] == LatchHigh
    ensures forall i :: 0 <= i < 193 ==> FrameTrace(days, hours, minutes, seconds)[i] != LatchHigh
  {
    var bs := FrameBytes(days, hours, minutes, seconds);
    BytesTraceLength(bs);
    BytesTraceClockEdges(bs);
    BytesTraceLeavesLatch(bs);
    var t := FrameTrace(days, hours, minutes, seconds);
    assert t == BytesTrace(bs) + [LatchLow, LatchHigh];
    forall i | 0 <= i < 193
      ensures t[i] != LatchHigh
    {
      if i < 192 {
        assert t[i] == BytesTrace(bs)[i];
      }
    }
  }

  /**
   * The frame read off the data line, a pair of bytes per field, gives back
   * seconds, minutes, hours and days in that order, for fields 0-99; the dot
   * is lit on the ones byte of minutes, hours and days.
   */
  lemma FrameRoundTrip(days: nat, hours: nat, minutes: nat, seconds: nat)
    requires days <= 99 && hours <= 99 && minutes <= 99 && seconds <= 99
    ensures FrameDefined(days, hours, minutes, seconds)
    ensures var w := WireBytes(DataBits(BytesTrace(FrameBytes(days, hours, minutes, seconds))));
      |w| == 8 &&
      DecodeChunk(w[0], w[1]) == Some(seconds) &&
      DecodeChunk(w[2], w[3]) == Some(minutes) &&
      DecodeChunk(w[4], w[5]) == Some(hours) &&
      DecodeChunk(w[6], w[7]) == Some(days)
  {
    ChunkRoundTrip(seconds, false);
    ChunkRoundTrip(minutes, true);
    ChunkRoundTrip(hours, true);
    ChunkRoundTrip(days, true);
    WireRoundTrip(FrameBytes(days, hours, minutes, seconds));
  }

  /** 3 days, 5 hours, 9 minutes, 42 seconds go out as 2 4 9. 0 5. 0 3. 0 (a dot after each ones digit but the seconds'). */
  lemma FrameExample()
    ensures FrameDefined(3, 5, 9, 42)
    ensures FrameBytes(3, 5, 9, 42) ==
      [Encode(2, false), Encode(4, false), Encode(9, true), Encode(0, false),
       Encode(5, true), Encode(0, false), Encode(3, true), Encode(0, false)]
  {
  }

  /** The pins of the display: every write to clock, data or latch is appended to `trace`. */
  class Display {
    var trace: seq<PinEvent>

    /** `setup` drives all three lines low. */
    constructor ()
      ensures trace == [ClockLow, Data(false), LatchLow]
    {
      trace := [ClockLow, Data(false), LatchLow];
    }

    /** `postNumber`: looks the glyph up, adds the dot, and clocks the byte out MSB first. */
    method PostNumber(number: Byte, decimal: bool)
      requires InTable(number)
      modifies this
      ensures trace == old(trace) + ByteTrace(Encode(number, decimal))
    {
      var segments := SegmentsOf(number);
      if decimal {
        segments := segments | DP;
      }
      var x: bv8 := 0;
      while x < 8
        invariant x <= 8
        invariant trace == old(trace) + BitsTrace(segments, x)
      {
        trace := trace + [ClockLow];
        trace := trace + [Data(segments & (1 << (7 - x)) != 0)];
        trace := trace + [ClockHigh];
        BitsTraceStep(old(trace), segments, x);
        x := x + 1;
      }
    }

    /** `showChunk`: the ones digit with the dot, then the tens digit without. */
    method ShowChunk(twoDigits: nat, trailingDot: bool)
      requires ChunkDefined(twoDigits)
      modifies this
      ensures trace == old(trace) + BytesTrace(ChunkBytes(twoDigits, trailingDot))
    {
      var ones, tens := ToByte(twoDigits % 10), ToByte(twoDigits / 10);
      PostNumber(ones, trailingDot);
      PostNumber(tens, false);
      ChunkTrace(old(trace), twoDigits, trailingDot);
    }

    /** `showDate`: seconds, minutes, hours, days, then one latch pulse. */
    method ShowDate(days: nat, hours: nat, minutes: nat, seconds: nat)
      requires FrameDefined(days, hours, minutes, seconds)
      modifies this
      ensures trace == old(trace) + FrameTrace(days, hours, minutes, seconds)
    {
      ShowChunk(seconds, false);
      ShowChunk(minutes, true);
      ShowChunk(hours, true);
      ShowChunk(days, true);
      trace := trace + [LatchLow];
      trace := trace + [LatchHigh];
      FrameTraceSplit(old(trace), days, hours, minutes, seconds);
    }
  }
}
