/**
 * The seven-segment code of `postNumber` and the digit split of `showChunk`:
 * which segments light up for a digit, a blank, a dash or a 'c', where the
 * decimal point goes, and how a two-digit field becomes two glyph bytes.
 */
module SegmentCode {

  datatype Option<T> = None | Some(value: T)

  /** The `byte` (uint8_t) that `postNumber` takes. */
  type Byte = x: int | 0 <= x < 256

  /** A value converted to `byte`: C keeps its low eight bits. */
  function ToByte(x: nat): (r: Byte)
    ensures x < 256 ==> r == x
    ensures (x - r) % 256 == 0
  {
    x % 256
  }

  // Segment wiring: bit i of the pattern drives one segment of the digit.
  const SEG_A: bv8 := 1 << 0
  const SEG_B: bv8 := 1 << 6
  const SEG_C: bv8 := 1 << 5
  const SEG_D: bv8 := 1 << 4
  const SEG_E: bv8 := 1 << 3
  const SEG_F: bv8 := 1 << 1
  const SEG_G: bv8 := 1 << 2
  /** The decimal point, bit 7. */
  const DP: bv8 := 1 << 7

  const BLANK: Byte := ' ' as int
  const LETTER_C: Byte := 'c' as int
  const DASH: Byte := '-' as int

  /** A decimal digit glyph. */
  predicate IsDigit(number: Byte) {
    number <= 9
  }

  /** The inputs the segment switch has a case for; any other leaves `segments` uninitialised. */
  predicate InTable(number: Byte) {
    IsDigit(number) || number == BLANK || number == LETTER_C || number == DASH
  }

  /** The segment switch: the lit segments for one glyph, without the decimal point. */
  function SegmentsOf(number: Byte): (r: bv8)
    requires InTable(number)
    ensures r & DP == 0
    ensures r == 0 <==> number == BLANK
  {
    if number == 1 then SEG_B | SEG_C
    else if number == 2 then SEG_A | SEG_B | SEG_D | SEG_E | SEG_G
    else if number == 3 then SEG_A | SEG_B | SEG_C | SEG_D | SEG_G
    else if number == 4 then SEG_F | SEG_G | SEG_B | SEG_C
    else if number == 5 then SEG_A | SEG_F | SEG_G | SEG_C | SEG_D
    else if number == 6 then SEG_A | SEG_F | SEG_G | SEG_E | SEG_C | SEG_D
    else if number == 7 then SEG_A | SEG_B | SEG_C
    else if number == 8 then SEG_A | SEG_B | SEG_C | SEG_D | SEG_E | SEG_F | SEG_G
    else if number == 9 then SEG_A | SEG_B | SEG_C | SEG_D | SEG_F | SEG_G
    else if number == 0 then SEG_A | SEG_B | SEG_C | SEG_D | SEG_E | SEG_F
    else if number == BLANK then 0
    else if number == LETTER_C then SEG_G | SEG_E | SEG_D
    else SEG_G
  }

  /** The byte `postNumber` shifts out: the glyph's segments, with the decimal point OR-ed in on request. */
  function Encode(number: Byte, decimal: bool): (r: bv8)
    requires InTable(number)
    ensures (r & DP != 0) == decimal
    ensures r & !DP == SegmentsOf(number)
  {
    if decimal then SegmentsOf(number) | DP else SegmentsOf(number)
  }

  /** Whether a shifted-out byte lights the decimal point. */
  predicate HasDot(pattern: bv8) {
    pattern & DP != 0
  }

  /** Reads a glyph back from a segment byte, ignoring the decimal point: the inverse of the table. */
  function DigitOf(pattern: bv8): (r: Option<Byte>)
    ensures r.Some? ==> InTable(r.value) && SegmentsOf(r.value) == pattern & !DP
  {
    var lit := pattern & !DP;
    if lit == SegmentsOf(0) then Some(0)
    else if lit == SegmentsOf(1) then Some(1)
    else if lit == SegmentsOf(2) then Some(2)
    else if lit == SegmentsOf(3) then Some(3)
    else if lit == SegmentsOf(4) then Some(4)
    else if lit == SegmentsOf(5) then Some(5)
    else if lit == SegmentsOf(6) then Some(6)
    else if lit == SegmentsOf(7) then Some(7)
    else if lit == SegmentsOf(8) then Some(8)
    else if lit == SegmentsOf(9) then Some(9)
    else if lit == SegmentsOf(BLANK) then Some(BLANK)
    else if lit == SegmentsOf(LETTER_C) then Some(LETTER_C)
    else if lit == SegmentsOf(DASH) then Some(DASH)
    else None
  }

  /** No two glyphs of the table light the same segments. */
  lemma SegmentsInjective(m: Byte, n: Byte)
    requires InTable(m) && InTable(n)
    ensures SegmentsOf(m) == SegmentsOf(n) ==> m == n
  {
  }

  /** Every glyph is read back from the byte that encodes it, whatever the decimal point. */
  lemma DigitOfEncode(number: Byte, decimal: bool)
    requires InTable(number)
    ensures DigitOf(Encode(number, decimal)) == Some(number)
    ensures HasDot(Encode(number, decimal)) == decimal
  {
    SegmentsInjective(DigitOf(Encode(number, decimal)).value, number);
  }

  /**
   * `showChunk`'s input is defined when both digit bytes it passes to
   * `postNumber` are in the table; the ones digit always is, the tens digit
   * `twoDigits / 10` is truncated to a byte first.
   */
  predicate ChunkDefined(twoDigits: nat) {
    InTable(ToByte(twoDigits % 10)) && InTable(ToByte(twoDigits / 10))
  }

  /** The two bytes `showChunk` shifts out: ones digit first (carrying the dot), then tens digit. */
  function ChunkBytes(twoDigits: nat, trailingDot: bool): (r: seq<bv8>)
    requires ChunkDefined(twoDigits)
    ensures |r| == 2
    ensures HasDot(r[0]) == trailingDot && !HasDot(r[1])
  {
    [Encode(ToByte(twoDigits % 10), trailingDot), Encode(ToByte(twoDigits / 10), false)]
  }

  /** The first byte of a chunk shows the ones digit, the second the tens digit truncated to a byte. */
  lemma ChunkDigits(twoDigits: nat, trailingDot: bool)
    requires ChunkDefined(twoDigits)
    ensures DigitOf(ChunkBytes(twoDigits, trailingDot)[0]) == Some(twoDigits % 10)
    ensures DigitOf(ChunkBytes(twoDigits, trailingDot)[1]) == Some(ToByte(twoDigits / 10))
  {
    DigitOfEncode(ToByte(twoDigits % 10), trailingDot);
    DigitOfEncode(ToByte(twoDigits / 10), false);
  }

  /** Every field the display is meant for, 0 to 99, is within the table. */
  lemma TwoDigitsDefined(twoDigits: nat)
    requires twoDigits <= 99
    ensures ChunkDefined(twoDigits)
  {
  }

  /** Reads a two-digit field back from its pair of bytes (ones byte first), as a reader of the display would. */
  function DecodeChunk(ones: bv8, tens: bv8): (r: Option<nat>)
    ensures r.Some? ==> r.value <= 99
  {
    match (DigitOf(ones), DigitOf(tens))
    case (Some(o), Some(t)) => if IsDigit(o) && IsDigit(t) then Some(10 * t + o) else None
    case _ => None
  }

  /** The digit split loses nothing: a field 0-99 is read back from the two bytes of its chunk. */
  lemma ChunkRoundTrip(twoDigits: nat, trailingDot: bool)
    requires twoDigits <= 99
    ensures ChunkDefined(twoDigits)
    ensures DecodeChunk(ChunkBytes(twoDigits, trailingDot)[0], ChunkBytes(twoDigits, trailingDot)[1]) == Some(twoDigits)
  {
    TwoDigitsDefined(twoDigits);
    ChunkDigits(twoDigits, trailingDot);
  }

  /**
   * Past 99 the tens digit is no longer a digit: 320 shows a blank tens
   * place, and 1070 hands `postNumber` byte 107, which the switch has no case for.
   */
  lemma LargeFieldsLeaveDigits()
    ensures ChunkDefined(320) && DigitOf(ChunkBytes(320, false)[1]) == Some(BLANK)
    ensures !ChunkDefined(1070)
  {
    ChunkDigits(320, false);
  }
}
