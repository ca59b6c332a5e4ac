# Four-digit seven-segment event counter

A model of the firmware of an AVR event counter (`main.c`). A rising edge on
the INT0 pin runs an interrupt handler. The handler increments the global
16-bit count `event` and resets it to 0 once it passes 9999. The main loop
runs forever. Each pass decodes the count into the four-byte buffer `dig`,
most significant place first. It then multiplexes the four digits onto a
seven-segment display with active-high enable lines. For each position
0..3 in order, the renderer:

1. writes the table pattern of the digit to the segment port (`PORTB`);
2. sets the position's enable bit on the control port (`PORTC`);
3. waits 1 ms;
4. clears the enable bit again.

Modules, one per part of the program:

- `Bytes` (`bytes.dfy`): `uint8_t` and `uint16_t` as subset types of `int`.
  It also holds the 16-bit `++`, with its wrap-around written out.
- `EventCounter` (`counter.dfy`): the handler as the function `Step`, and
  `Edges`, the count after n edges. The lemmas prove:
  - the count stays in 0..9999;
  - the handler never overflows 16 bits;
  - n edges from 0 leave `n mod 10000`.
- `Decoder` (`decode.dfy`): `Digits`, the split into four places, and
  `Value`, its inverse. The lemmas prove:
  - decoding round-trips in both directions;
  - all four places are decimal digits exactly when the value is at most
    9999.
- `SevenSegment` (`segments.dfy`): the ten-entry segment table. It is checked
  against an independent definition of each digit's glyph.
- `Display` (`display.dfy`): `Scan`, the sequence of port states that one
  render writes. The lemmas prove:
  - the writes come in order;
  - at most one position is enabled at a time;
  - an enabled position always shows its own digit;
  - bits 4..7 of the control port pass through unchanged;
  - all enable bits are clear on exit.
- `Firmware` (`firmware.dfy`): the class `Device` holds the program's globals
  (`event`, `dig`, the two ports) and a ghost trace of every port write. Its
  methods follow the C routines statement by statement, and each is proved
  against the functions above. `Run` interleaves edges with bounded passes of
  the main loop.

Inputs and outputs: the ports are fields of type `bv8`. Edges arrive as calls
to `OnEdge`. `_delay_ms` is an empty step, marked by a comment where the C
code calls it.

Choices the code dictates:

- `DECODE_SSD` accepts any `uint16_t`. For values above 9999 the leading
  place is 10..65, which still fits in the `uint8_t` buffer. The
  out-of-bounds hazard is the table lookup `ssd[dig[i]]` in `DISPLAY_SSD`.
  So `Decode` takes any 16-bit value, and `Display` requires every buffered
  digit to be at most 9. `Device.Valid()` (count at most 9999) together with
  `DigitsDecimalIff` discharges that requirement in `MainIteration`.
- Mutual exclusion of the enable lines is proved for an entry value of
  `PORTC` whose bits 0..3 are clear. They are clear at reset, and every
  render leaves them clear again. `MutualExclusion`, `Device.Display` and
  `Device.Run` carry that hypothesis. It is sufficient, not necessary: an
  entry value with only bit 0 set still keeps the positions exclusive,
  whereas any of bits 1..3 set on entry breaks exclusion at the first hold
  (`0x02 | 0x01` enables two positions).
- `DISPLAY_SSD` takes no parameter: it reads the global buffer `dig`, and so
  does `Device.Display`.

Assumption not stated in the code: segment a..g is wired to bit 0..6 of the
segment port, and bit 7 drives the decimal point. This is the conventional
wiring, and the only one under which the table draws decimal digits.
`TableDrawsGlyphs` states the table against it.

## Model

| member | source | states |
|---|---|---|
| `Bytes.Inc16` | main.c:30 | `event++` on a `uint16_t` adds one below 65535 and wraps 65535 to 0 |
| `EventCounter.Step` | main.c:29-34 | one edge: from any 16-bit count the result is in 0..9999; below 9999 it is the count plus one, from 9999 upward (including the 16-bit wrap at 65535) it is 0 |
| `EventCounter.NoOverflow` | main.c:30-33 | from a count in 0..9999 the 16-bit increment does not wrap, and the largest value ever stored is 10000 |
| `EventCounter.StepIsModular` | main.c:29-34 | on 0..9999 one edge is addition of one modulo 10000 |
| `EventCounter.Edges` | main.c:29-34 | the count after n handler runs: displayable when the start is, and after at least one edge from any 16-bit start |
| `EventCounter.EdgesAreModular` | main.c:29-34 | n edges from a count e in 0..9999 leave (e + n) mod 10000 |
| `EventCounter.EdgesFromZero` | main.c:23-34 | from the initial count 0, n edges leave n mod 10000, always in 0..9999 |
| `EventCounter.EdgesCompose` | main.c:29-34 | a edges followed by b edges are a + b edges |
| `EventCounter.WrapBoundary` | main.c:31-33 | 9999 is followed by 0, never by 10000 |
| `Decoder.Digits` | main.c:72-77 | the four places of any 16-bit value; each fits in a `uint8_t`, and the leading one is at most 65 |
| `Decoder.ValueOfDigits` | main.c:72-77 | 1000·d0 + 100·d1 + 10·d2 + d3 gives back the decoded value, for every 16-bit input |
| `Decoder.DigitsDecimalIff` | main.c:72-77 | all four places are in 0..9 if and only if the value is at most 9999 |
| `Decoder.DigitsOfValue` | main.c:72-77 | every four-digit decimal numeral is the decoding of its own value, and that value is at most 9999 |
| `Decoder.LeadingZeros` | main.c:72-77 | leading zeros are kept (7 decodes to 0, 0, 0, 7) and 9999 decodes to 9, 9, 9, 9 |
| `SevenSegment.Table` | main.c:85 | the ten segment bytes, in digit order; `TableDrawsGlyphs` and `DecimalPointOff` fix each byte |
| `SevenSegment.TableDrawsGlyphs` | main.c:85 | for each digit 0..9, the table pattern lights exactly the segments of that digit's glyph |
| `SevenSegment.DecimalPointOff` | main.c:85 | no table pattern lights the decimal point |
| `SevenSegment.TableInjective` | main.c:85 | two digits have the same pattern only if they are the same digit |
| `Display.Enable` | main.c:11-14 | each position's enable mask is non-zero and lies within bits 0..3 |
| `Display.EnableDisjoint` | main.c:11-14 | the enable masks of different positions share no bit |
| `Display.SetBits` | main.c:88 | the OR-assignment to `CONTROL_PORT`: the value OR the mask; its meaning is stated by `MaskWrites` |
| `Display.ClearBits` | main.c:90 | the AND-NOT assignment `CONTROL_PORT &= ~m`: the value AND NOT the mask; its meaning is stated by `MaskWrites` |
| `Display.MaskWrites` | main.c:88-90 | the OR-update sets exactly the bits of the mask and the AND-NOT update clears exactly those bits; every other bit keeps its value |
| `Display.Position` | main.c:87-90 | one position's writes are three, all showing the given pattern, the first with the entry control value |
| `Display.PositionPulses` | main.c:88-90 | the second of a position's writes has the position enabled and the third has it disabled, and no other control bit changes |
| `Display.Scan` | main.c:83-106 | a render from position i writes three port states per remaining position |
| `Display.ScanUnrolled` | main.c:87-105 | a whole render is position 0's three writes, then position 1's, 2's and 3's, each starting from the control value the previous one left |
| `Display.ScanHead` | main.c:87-90 | a position's writes: its digit's pattern with the entry control value, then the enable bit set, then cleared |
| `Display.ScanTail` | main.c:87-105 | after a position's three writes, the render continues with the next position from the control value it left |
| `Display.SetClearRestores` | main.c:88-90 | setting and then clearing an enable bit restores a control value whose enable bits were all clear |
| `Display.MasksKeepHighBits` | main.c:88-90 | setting or clearing an enable mask on the control port keeps bits 4..7 |
| `Display.ScanAt` | main.c:87-105 | with all enable bits clear on entry, write n = 3(q - i) + j of a render from position i shows digit q's pattern, and its control value has only position q's bit added, during the hold (j = 1) and at no other write |
| `Display.ScanOrder` | main.c:87-105 | with all enable bits clear on entry, write k of a render shows the pattern of digit k/3, and position k/3 is enabled exactly at the hold write |
| `Display.OneHot` | main.c:88-90 | the entry value, or the entry value with position q's bit set, enables at most position q |
| `Display.MutualExclusion` | main.c:87-105 | with all enable bits clear on entry, every write leaves at most one position enabled, and an enabled position shows its own digit's pattern |
| `Display.ScanKeepsHighBits` | main.c:88-105 | every write of a render keeps bits 4..7 of the control port as they were on entry, whatever the entry value |
| `Display.ExitValue` | main.c:88-105 | after all four positions the enable bits are clear and bits 4..7 are as on entry |
| `Display.RenderFacts` | main.c:83-106 | a render writes 12 states; the last shows digit 3's pattern with the enable bits cleared; every write keeps bits 4..7; with all enable bits clear on entry, every write enables at most one position |
| `Display.Render1234` | main.c:85-105 | rendering 1, 2, 3, 4 from an all-clear control port gives exactly the twelve expected writes |
| `Firmware.DisplaysCount` | main.c:72-106 | for a count in 0..9999, whenever position p is enabled during its render, the segment port lights exactly the glyph of the count's p-th decimal place |
| `Firmware.Device.constructor` | main.c:21-23 | at power-on the count is 0, the buffer is zeroed, the ports are 0 and nothing has been written |
| `Firmware.Device.OnEdge` | main.c:29-34 | one edge takes the count to `Step` of its old value, so the count is in 0..9999 from any 16-bit start |
| `Firmware.Device.Decode` | main.c:72-77 | the buffer holds `Digits(value)`; its places add back up to `value`; it is all decimal digits exactly when `value` is at most 9999 |
| `Firmware.Device.WriteNumeral` | main.c:87 | the segment port takes the pattern, and the write is recorded |
| `Firmware.Device.SetControl` | main.c:88 | the control port becomes its old value OR the mask, and the write is recorded |
| `Firmware.Device.ClearControl` | main.c:90 | the control port becomes its old value AND NOT the mask, and the write is recorded |
| `Firmware.Device.ShowPosition` | main.c:87-90 | one position's three writes are appended to the trace, and the control port is left with its bit cleared |
| `Firmware.Device.Display` | main.c:83-106 | the 12 new trace entries are `Scan` of the buffer; the segment port ends on digit 3's pattern; the control port ends with bits 0..3 clear and bits 4..7 unchanged; every write keeps bits 4..7; with bits 0..3 clear on entry, every write enables at most one position; the buffer is not modified |
| `Firmware.Device.MainIteration` | main.c:42-45 | one loop pass leaves the buffer equal to the decoded count, appends the 12 writes of that count's render to the trace, ends with the segment port on digit 3's pattern and the enable bits clear, keeps the count and the invariant, and with the enable bits clear on entry every new write enables at most one position |
| `Firmware.Device.HandleEdges` | main.c:29-34 | n handled edges take the count to `Edges(old count, n)` |
| `Firmware.Device.EdgesThenPass` | main.c:42-45 | edges followed by one loop pass: the count advances by the edges, the buffer holds the new count's digits, and the trace gains exactly the render of the new count; the segment port ends on its digit 3 pattern, the enable bits end clear, and with the enable bits clear on entry every new write enables at most one position |
| `Firmware.Device.RunPass` | main.c:42-45 | one pass of a bounded run (its edges, then decode and render) takes the run's state after k passes to its state after k + 1 |
| `Firmware.Device.Run` | main.c:36-46 | after a bounded run with edges between passes, the count is (start + total edges) mod 10000; the trace keeps its old entries and gains 12 per pass, and the writes of pass p are exactly the render (`Shown`) of the count after the edges of passes 0..p, from the entry control value for the first pass and from its bits 4..7 for later ones; with an empty schedule both ports and the buffer are unchanged; after at least one pass the buffer and the segment port show the final count and the enable bits are clear; with the enable bits clear at the start, every write of the run enables at most one position |

## Left out

- `PORT_INIT` and `INT_INIT` (main.c:52-65): these only configure the
  data-direction and interrupt-control registers. The ports start at their
  reset value 0 in the constructor.
- `sei()` and interrupt preemption (main.c:40): the handler is an ordinary
  method, called only between passes of the main loop. The model does not
  treat an edge arriving mid-pass. It also does not treat the torn read of
  the 16-bit `volatile event` that the 8-bit CPU can make in
  `DECODE_SSD(event)`. Both are concurrency effects. The in-bounds guarantee
  for the table lookup rests on treating that read as atomic. Read from the
  code alone, not observed on hardware: with the usual low-byte-first load of a 16-bit
  value, the main loop can read 0x27FF = 10239 while the handler moves the
  count from 9983 (0x26FF) to 9984 (0x2700). Then `dig[0]` is 10, and
  `ssd[dig[0]]` at main.c:87 reads past the ten-entry table.
- `_delay_ms(1)` and `F_CPU` (main.c:1, 89, 94, 99, 104): the model has no
  timing, so it says nothing about refresh rate, dwell time or brightness.
- The unbounded `while(1)` (main.c:42-45): `Device.Run` models a finite
  number of passes. Non-termination is not modelled.
- The AVR register macros: the two ports are plain byte fields. Writes to
  other registers are not modelled.
