/**
  The multiplexed renderer, as a sequence of port writes. For each digit
  position 0..3 in turn it puts that digit's pattern on the segment port,
  sets the position's enable bit on the control port, holds, and clears the
  bit again. The enable lines are bits 0..3 of the control port; bits 4..7
  belong to other pins and must pass through untouched.
 */
module Display {
  import opened SevenSegment
  import opened Decoder

  /** The two output ports, observed right after one write. */
  datatype PortState = PortState(numeral: bv8, control: bv8)

  /** The control-port mask of digit position `i`, `1 << i`. */
  function Enable(i: nat): (m: bv8)
    requires i < 4
    ensures m != 0 && m & 0xF0 == 0
  {
    if i == 0 then 0x01 else if i == 1 then 0x02 else if i == 2 then 0x04 else 0x08
  }

  /** Whether digit position `i` is enabled in a control-port value. */
  predicate On(control: bv8, i: nat)
    requires i < 4
  {
    control & Enable(i) != 0
  }

  /** No digit position is enabled. */
  predicate AllOff(control: bv8) {
    control & 0x0F == 0
  }

  /** At most one digit position is enabled. */
  predicate AtMostOneOn(control: bv8) {
    forall i, j :: 0 <= i < j < 4 ==> !(On(control, i) && On(control, j))
  }

  /** `CONTROL_PORT |= m`: the bits of `m` become set, the others keep
      their value. */
  function SetBits(c: bv8, m: bv8): (r: bv8)
  {
    c | m
  }

  /** `CONTROL_PORT &= ~m`: the bits of `m` become clear, the others keep
      their value. */
  function ClearBits(c: bv8, m: bv8): (r: bv8)
  {
    c & !m
  }

  /** What the two port updates mean: `|=` sets exactly the bits of the
      mask and `&= ~` clears exactly those bits; every other bit keeps its
      value. */
  lemma MaskWrites(c: bv8, m: bv8)
    ensures SetBits(c, m) & m == m && SetBits(c, m) & !m == c & !m
    ensures ClearBits(c, m) & m == 0 && ClearBits(c, m) & !m == c & !m
  {
  }

  /** The control value after position `i` has been enabled and disabled. */
  function Pulse(c: bv8, i: nat): (r: bv8)
    requires i < 4
  {
    ClearBits(SetBits(c, Enable(i)), Enable(i))
  }

  /** The three writes for one position: its pattern, its enable bit set,
      its enable bit cleared. */
  function Position(seg: bv8, c: bv8, i: nat): (t: seq<PortState>)
    requires i < 4
    ensures |t| == 3 && t[0].numeral == seg && t[1].numeral == seg && t[2].numeral == seg
    ensures t[0].control == c
  {
    [PortState(seg, c), PortState(seg, SetBits(c, Enable(i))), PortState(seg, Pulse(c, i))]
  }

  /** During a position's writes only its own enable bit changes: it is set
      at the second write and clear again at the third. */
  lemma PositionPulses(seg: bv8, c: bv8, i: nat)
    requires i < 4
    ensures var t := Position(seg, c, i);
      && On(t[1].control, i) && t[1].control & !Enable(i) == c & !Enable(i)
      && !On(t[2].control, i) && t[2].control & !Enable(i) == c & !Enable(i)
  {
  }

  /**
    The port states written while rendering positions `i..3` of `d`,
    starting with control port `c`: three writes per position.
   */
  function Scan(d: seq<int>, c: bv8, i: nat): (t: seq<PortState>)
    requires IsDecimal(d) && i <= 4
    ensures |t| == 3 * (4 - i)
    decreases 4 - i
  {
    if i == 4 then [] else Position(Table[d[i]], c, i) + Scan(d, Pulse(c, i), i + 1)
  }

  /** A whole render is the four positions' writes, one after another. */
  lemma ScanUnrolled(d: seq<int>, c: bv8)
    requires IsDecimal(d)
    ensures var c1 := Pulse(c, 0); var c2 := Pulse(c1, 1); var c3 := Pulse(c2, 2);
      Scan(d, c, 0) == Position(Table[d[0]], c, 0) + Position(Table[d[1]], c1, 1)
                     + Position(Table[d[2]], c2, 2) + Position(Table[d[3]], c3, 3)
  {
    var c1 := Pulse(c, 0);
    var c2 := Pulse(c1, 1);
    var c3 := Pulse(c2, 2);
    assert Scan(d, c3, 3) == Position(Table[d[3]], c3, 3);
    assert Scan(d, c2, 2) == Position(Table[d[2]], c2, 2) + Scan(d, c3, 3);
    assert Scan(d, c1, 1) == Position(Table[d[1]], c1, 1) + Scan(d, c2, 2);
  }

  /** Enabling and then disabling one position gives back a control value
      whose enable bits were all clear. */
  lemma SetClearRestores(c: bv8, i: nat)
    requires i < 4 && AllOff(c)
    ensures Pulse(c, i) == c
  {
  }

  /**
    Step by step: when no position is enabled on entry, write
    `n = 3(q - i) + j` puts digit `q`'s pattern on the segment port, and the
    control port is the entry value with only position `q`'s bit added,
    during the hold (j = 1) and nowhere else.
   */
  lemma {:induction false} ScanAt(d: seq<int>, c: bv8, i: nat, q: nat, j: nat, n: nat)
    requires IsDecimal(d) && i <= q < 4 && j < 3 && AllOff(c) && n == 3 * (q - i) + j
    ensures Scan(d, c, i)[n]
         == PortState(Table[d[q]], if j == 1 then SetBits(c, Enable(q)) else c)
    decreases 4 - i
  {
    SetClearRestores(c, i);
    if q > i {
      ScanAt(d, c, i + 1, q, j, n - 3);
    }
  }

  /** The digit position that write `k` of a render belongs to. */
  function PositionOf(k: nat): (q: nat)
    requires k < 12
    ensures q < 4 && 3 * q <= k < 3 * q + 3
  {
    k / 3
  }

  /** Which of its position's three writes write `k` is: 0 the pattern,
      1 the enable, 2 the disable. */
  function PhaseOf(k: nat): (j: nat)
    requires k < 12
    ensures j < 3 && k == 3 * PositionOf(k) + j
  {
    k % 3
  }

  /** The full render of `d` from a control value `c` with all positions
      off: write `k` shows the pattern of digit `k / 3`, and that position
      is enabled exactly at its hold write. */
  lemma ScanOrder(d: seq<int>, c: bv8, k: nat)
    requires IsDecimal(d) && AllOff(c) && k < 12
    ensures Scan(d, c, 0)[k].numeral == Table[d[PositionOf(k)]]
    ensures Scan(d, c, 0)[k].control
         == if PhaseOf(k) == 1 then SetBits(c, Enable(PositionOf(k))) else c
  {
    ScanAt(d, c, 0, PositionOf(k), PhaseOf(k), k);
  }

  /** Single-bit masks of different positions do not overlap. */
  lemma EnableDisjoint(i: nat, j: nat)
    requires i < 4 && j < 4 && i != j
    ensures Enable(i) & Enable(j) == 0
  {
  }

  /**
    Mutual exclusion and no ghosting: when no position is enabled on entry,
    every write leaves at most one position enabled, and a position that is
    enabled always shows its own digit's pattern.
   */
  lemma MutualExclusion(d: seq<int>, c: bv8, k: nat)
    requires IsDecimal(d) && AllOff(c) && k < 12
    ensures AtMostOneOn(Scan(d, c, 0)[k].control)
    ensures forall p :: 0 <= p < 4 && On(Scan(d, c, 0)[k].control, p) ==>
              p == PositionOf(k) && Scan(d, c, 0)[k].numeral == Table[d[p]]
  {
    var q, j := PositionOf(k), PhaseOf(k);
    ScanAt(d, c, 0, q, j, k);
    if j == 1 {
      OneHot(c, q, SetBits(c, Enable(q)));
    } else {
      OneHot(c, q, c);
    }
  }

  /** A control value that is either the all-off entry value or that value
      with only position `q` added enables at most `q`. */
  lemma OneHot(c: bv8, q: nat, x: bv8)
    requires AllOff(c) && q < 4 && (x == c || x == SetBits(c, Enable(q)))
    ensures AtMostOneOn(x)
    ensures forall p :: 0 <= p < 4 && On(x, p) ==> p == q
  {
    forall p | 0 <= p < 4 && On(x, p)
      ensures p == q
    {
      if p != q {
        EnableDisjoint(p, q);
      }
    }
  }

  /** The first three writes of a render from position `i`: the pattern of
      digit `i`, then its enable bit set, then cleared. */
  lemma ScanHead(d: seq<int>, c: bv8, i: nat, k: nat)
    requires IsDecimal(d) && i < 4 && k < 3
    ensures Scan(d, c, i)[k].numeral == Table[d[i]]
    ensures Scan(d, c, i)[k].control == if k == 0 then c
                                       else if k == 1 then SetBits(c, Enable(i))
                                       else Pulse(c, i)
  {
  }

  /** Writes `k >= 3` of a render from position `i` are those of the render
      from position `i + 1`. */
  lemma ScanTail(d: seq<int>, c: bv8, i: nat, k: nat)
    requires IsDecimal(d) && i < 4 && 3 <= k < |Scan(d, c, i)|
    ensures Scan(d, c, i)[k]
         == Scan(d, Pulse(c, i), i + 1)[k - 3]
  {
  }

  /** Setting or clearing an enable bit keeps bits 4..7. */
  lemma MasksKeepHighBits(c: bv8, i: nat)
    requires i < 4
    ensures SetBits(c, Enable(i)) & 0xF0 == c & 0xF0
    ensures Pulse(c, i) & 0xF0 == c & 0xF0
  {
  }

  /** Bits 4..7 of the control port pass through every write unchanged,
      whatever the entry value. */
  lemma {:induction false} ScanKeepsHighBits(d: seq<int>, c: bv8, i: nat, k: nat)
    requires IsDecimal(d) && i <= 4 && k < |Scan(d, c, i)|
    ensures Scan(d, c, i)[k].control & 0xF0 == c & 0xF0
    decreases 4 - i
  {
    MasksKeepHighBits(c, i);
    if k >= 3 {
      ScanTail(d, c, i, k);
      ScanKeepsHighBits(d, Pulse(c, i), i + 1, k - 3);
    } else {
      ScanHead(d, c, i, k);
    }
  }

  /** A whole render clears the four enable bits and keeps bits 4..7,
      whatever the entry value. */
  lemma ExitValue(c: bv8)
    ensures Pulse(Pulse(Pulse(Pulse(c, 0), 1), 2), 3) == c & 0xF0
  {
  }

  /** Everything a whole render guarantees, in one place. */
  lemma RenderFacts(d: seq<int>, c: bv8)
    requires IsDecimal(d)
    ensures |Scan(d, c, 0)| == 12
    ensures Scan(d, c, 0)[11] == PortState(Table[d[3]], c & 0xF0)
    ensures forall k :: 0 <= k < 12 ==> Scan(d, c, 0)[k].control & 0xF0 == c & 0xF0
    ensures AllOff(c) ==> forall k :: 0 <= k < 12 ==> AtMostOneOn(Scan(d, c, 0)[k].control)
  {
    ScanUnrolled(d, c);
    ExitValue(c);
    forall k | 0 <= k < 12
      ensures Scan(d, c, 0)[k].control & 0xF0 == c & 0xF0
    {
      ScanKeepsHighBits(d, c, 0, k);
    }
    if AllOff(c) {
      forall k | 0 <= k < 12
        ensures AtMostOneOn(Scan(d, c, 0)[k].control)
      {
        MutualExclusion(d, c, k);
      }
    }
  }

  /** The example render of 1, 2, 3, 4 with all positions off. */
  lemma Render1234()
    ensures Scan([1, 2, 3, 4], 0, 0) ==
      [PortState(0x06, 0), PortState(0x06, 1), PortState(0x06, 0),
       PortState(0x5B, 0), PortState(0x5B, 2), PortState(0x5B, 0),
       PortState(0x4F, 0), PortState(0x4F, 4), PortState(0x4F, 0),
       PortState(0x66, 0), PortState(0x66, 8), PortState(0x66, 0)]
  {
  }
}
