/**
  The segment table: the byte written to the segment port for each decimal
  digit. Bit 0 drives segment a, bit 1 segment b, and so on up to bit 6
  for segment g; bit 7 is the decimal point.
 */
module SevenSegment {

  /** The segment pattern of each digit 0..9. */
  const Table: seq<bv8> := [0x3F, 0x06, 0x5B, 0x4F, 0x66, 0x6D, 0x7D, 0x07, 0x7F, 0x6F]

  /** The seven segments of one digit position. */
  datatype Segment = A | B | C | D | E | F | G

  /** The port bit that drives a segment. */
  function SegmentBit(s: Segment): (b: nat)
    ensures b < 7
  {
    match s
    case A => 0
    case B => 1
    case C => 2
    case D => 3
    case E => 4
    case F => 5
    case G => 6
  }

  /** Whether bit `b` of `x` is set. */
  predicate BitSet(x: bv8, b: nat)
    requires b < 8
  {
    x & ((1 as bv8) << b) != 0
  }

  /** The segments that form each decimal digit on a seven-segment display. */
  function Glyph(digit: int): (g: set<Segment>)
    requires 0 <= digit <= 9
  {
    if digit == 0 then {A, B, C, D, E, F}
    else if digit == 1 then {B, C}
    else if digit == 2 then {A, B, D, E, G}
    else if digit == 3 then {A, B, C, D, G}
    else if digit == 4 then {B, C, F, G}
    else if digit == 5 then {A, C, D, F, G}
    else if digit == 6 then {A, C, D, E, F, G}
    else if digit == 7 then {A, B, C}
    else if digit == 8 then {A, B, C, D, E, F, G}
    else {A, B, C, D, F, G}
  }

  /** The table lights exactly the segments of each digit's glyph. */
  lemma TableDrawsGlyphs(digit: int, s: Segment)
    requires 0 <= digit <= 9
    ensures BitSet(Table[digit], SegmentBit(s)) <==> s in Glyph(digit)
  {
  }

  /** The decimal point is dark for every digit. */
  lemma DecimalPointOff(digit: int)
    requires 0 <= digit <= 9
    ensures !BitSet(Table[digit], 7)
  {
  }

  /** Different digits have different patterns, so each reads distinctly. */
  lemma TableInjective(i: int, j: int)
    requires 0 <= i <= 9 && 0 <= j <= 9
    ensures Table[i] == Table[j] <==> i == j
  {
  }
}
