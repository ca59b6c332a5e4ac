/**
  The firmware's global state and its three routines: the INT0 handler,
  the decoder and the renderer, plus the main loop that runs the last two
  forever while edges arrive.
 */
module Firmware {
  import opened Bytes
  import opened EventCounter
  import opened Decoder
  import opened SevenSegment
  import opened Display

  /** The total number of edges in a schedule. */
  function Total(schedule: seq<nat>): (n: nat)
    decreases |schedule|
  {
    if schedule == [] then 0 else Total(schedule[..|schedule| - 1]) + schedule[|schedule| - 1]
  }

  /** The edges before pass `k` add on to those of the passes before it. */
  lemma EdgesOfSchedule(e: u16, schedule: seq<nat>, k: nat)
    requires k < |schedule|
    ensures Edges(Edges(e, Total(schedule[..k])), schedule[k]) == Edges(e, Total(schedule[..k + 1]))
  {
    assert schedule[..k + 1][..k] == schedule[..k];
    EdgesCompose(e, Total(schedule[..k]), schedule[k]);
  }

  /**
    What a viewer sees: while a count `v` is rendered from a control value
    with all positions off, whenever position `p` is enabled the segment
    port lights exactly the glyph of the `p`-th decimal place of `v`.
   */
  lemma DisplaysCount(v: u16, c: bv8, k: nat, p: nat, s: Segment)
    requires InRange(v) && AllOff(c) && k < 12 && p < 4
    requires On(Scan(Digits(v), c, 0)[k].control, p)
    ensures IsDecimal(Digits(v)) && Value(Digits(v)) == v
    ensures BitSet(Scan(Digits(v), c, 0)[k].numeral, SegmentBit(s)) <==> s in Glyph(Digits(v)[p])
  {
    DigitsDecimalIff(v);
    ValueOfDigits(v);
    MutualExclusion(Digits(v), c, k);
    TableDrawsGlyphs(Digits(v)[p], s);
  }

  /** The twelve writes of pass `p` of a run whose first write is at index
      `base` of the trace `t`. */
  function Pass(t: seq<PortState>, base: nat, p: nat): (w: seq<PortState>)
    requires base + 12 * (p + 1) <= |t|
    ensures |w| == 12
  {
    t[base + 12 * p .. base + 12 * (p + 1)]
  }

  /**
    What pass `p` of a run over `schedule` renders, from the count `e` and
    the control value `c` the run starts with: the count after the edges
    before passes 0..p, starting from `c` for the first pass and from the
    value a render leaves for every later one.
   */
  function Shown(e: u16, c: bv8, schedule: seq<nat>, p: nat): (w: seq<PortState>)
    requires InRange(e) && p < |schedule|
    ensures |w| == 12
  {
    var v := Edges(e, Total(schedule[..p + 1]));
    DigitsDecimalIff(v);
    Scan(Digits(v), if p == 0 then c else c & 0xF0, 0)
  }

  /** A pass appends to a trace that already extends `t0`: the result still
      extends `t0`, and if every write after `t0` enabled at most one
      position before and during the pass, it still does. */
  lemma ExtendsTrace(t0: seq<PortState>, t1: seq<PortState>, t2: seq<PortState>, exclusive: bool)
    requires |t0| <= |t1| <= |t2|
    requires t1[..|t0|] == t0 && t2[..|t1|] == t1
    requires exclusive ==> forall m :: |t0| <= m < |t1| ==> AtMostOneOn(t1[m].control)
    requires exclusive ==> forall m :: |t1| <= m < |t2| ==> AtMostOneOn(t2[m].control)
    ensures t2[..|t0|] == t0
    ensures exclusive ==> forall m :: |t0| <= m < |t2| ==> AtMostOneOn(t2[m].control)
  {
    forall m | 0 <= m < |t1|
      ensures t2[m] == t1[m]
    {
      assert t2[..|t1|][m] == t1[m];
    }
  }

  /** Pass `k` of a run appends its expected writes after those of passes
      0..k-1, which stay in place. */
  lemma PassesStep(t1: seq<PortState>, t2: seq<PortState>, base: nat,
                   expected: seq<seq<PortState>>, k: nat)
    requires k < |expected|
    requires |t1| == base + 12 * k && |t2| == |t1| + 12 && t2[..|t1|] == t1
    requires forall p :: 0 <= p < k ==> Pass(t1, base, p) == expected[p]
    requires t2[|t1|..] == expected[k]
    ensures forall p :: 0 <= p <= k ==> Pass(t2, base, p) == expected[p]
  {
    forall p | 0 <= p <= k
      ensures Pass(t2, base, p) == expected[p]
    {
      if p < k {
        PassKept(t1, t2, base, p);
      } else {
        PassLast(t1, t2, base, k);
      }
    }
  }

  /** Extending a trace keeps the writes of a pass it already holds. */
  lemma PassKept(t1: seq<PortState>, t2: seq<PortState>, base: nat, p: nat)
    requires base + 12 * (p + 1) <= |t1| <= |t2| && t2[..|t1|] == t1
    ensures Pass(t2, base, p) == Pass(t1, base, p)
  {
    assert Pass(t2, base, p) == t2[..|t1|][base + 12 * p .. base + 12 * (p + 1)];
  }

  /** The twelve writes that extend a trace of `k` passes are pass `k`. */
  lemma PassLast(t1: seq<PortState>, t2: seq<PortState>, base: nat, k: nat)
    requires |t1| == base + 12 * k && |t2| == |t1| + 12
    ensures Pass(t2, base, k) == t2[|t1|..]
  {
  }

  /** The microcontroller: the counter, the digit buffer and the two ports. */
  class Device {
    /** The shared edge count (`volatile uint16_t event`). */
    var event: u16
    /** The digit buffer (`uint8_t dig[4]`), most significant first. */
    const dig: array<u8>
    /** The segment port. */
    var numeralPort: bv8
    /** The digit-enable port; bits 0..3 enable positions 0..3. */
    var controlPort: bv8
    /** Every port state, in order, right after each port write. */
    ghost var trace: seq<PortState>

    /** The count is displayable and the buffer holds four digits. */
    ghost predicate Valid()
      reads this
    {
      dig.Length == 4 && InRange(event)
    }

    /** Power-on: the count starts at 0, the zero-initialised buffer and the
        ports hold 0, and nothing has been written yet. */
    constructor ()
      ensures Valid() && fresh(dig)
      ensures event == 0 && dig[..] == [0, 0, 0, 0]
      ensures numeralPort == 0 && controlPort == 0 && trace == []
    {
      event := 0;
      dig := new u8[4](_ => 0);
      numeralPort := 0;
      controlPort := 0;
      trace := [];
    }

    /** The INT0 rising-edge handler: `event++`, then reset past 9999. */
    method OnEdge()
      modifies this`event
      ensures event == Step(old(event))
      ensures InRange(event)
    {
      event := Inc16(event);
      if event > MaxCount {
        event := 0;
      }
    }

    /** The decoder: stores the four places of `value` in the buffer. */
    method Decode(value: u16)
      requires dig.Length == 4
      modifies dig
      ensures dig[..] == Digits(value)
      ensures Value(dig[..]) == value
      ensures IsDecimal(dig[..]) <==> value <= MaxCount
    {
      dig[0] := value / 1000;
      dig[1] := (value % 1000) / 100;
      dig[2] := (value % 100) / 10;
      dig[3] := value % 10;
      ValueOfDigits(value);
      DigitsDecimalIff(value);
    }

    /** `NUMERAL_PORT = pattern`. */
    method WriteNumeral(pattern: bv8)
      modifies this`numeralPort, this`trace
      ensures numeralPort == pattern
      ensures trace == old(trace) + [PortState(pattern, controlPort)]
    {
      numeralPort := pattern;
      trace := trace + [PortState(numeralPort, controlPort)];
    }

    /** `CONTROL_PORT |= mask`. */
    method SetControl(mask: bv8)
      modifies this`controlPort, this`trace
      ensures controlPort == SetBits(old(controlPort), mask)
      ensures trace == old(trace) + [PortState(numeralPort, controlPort)]
    {
      controlPort := controlPort | mask;
      trace := trace + [PortState(numeralPort, controlPort)];
    }

    /** `CONTROL_PORT &= ~mask`. */
    method ClearControl(mask: bv8)
      modifies this`controlPort, this`trace
      ensures controlPort == ClearBits(old(controlPort), mask)
      ensures trace == old(trace) + [PortState(numeralPort, controlPort)]
    {
      controlPort := controlPort & !mask;
      trace := trace + [PortState(numeralPort, controlPort)];
    }

    /** One position of the renderer: its pattern on the segment port, its
        enable bit set, a hold, and the bit cleared again. */
    method ShowPosition(pattern: bv8, i: nat)
      requires i < 4
      modifies this`numeralPort, this`controlPort, this`trace
      ensures numeralPort == pattern
      ensures controlPort == Pulse(old(controlPort), i)
      ensures trace == old(trace) + Position(pattern, old(controlPort), i)
    {
      WriteNumeral(pattern);
      SetControl(Enable(i));
      // _delay_ms(1)
      ClearControl(Enable(i));
    }

    /**
      The renderer: positions 0..3 in order. The table lookup is in bounds
      only when every buffered digit is at most 9.
     */
    method Display()
      requires dig.Length == 4 && IsDecimal(dig[..])
      modifies this`numeralPort, this`controlPort, this`trace
      ensures |trace| == |old(trace)| + 12
      ensures trace[..|old(trace)|] == old(trace)
      ensures trace[|old(trace)|..] == Scan(dig[..], old(controlPort), 0)
      ensures numeralPort == Table[dig[3]]
      ensures controlPort == old(controlPort) & 0xF0
      ensures forall k :: |old(trace)| <= k < |trace| ==>
                trace[k].control & 0xF0 == old(controlPort) & 0xF0
      ensures AllOff(old(controlPort)) ==> forall k :: |old(trace)| <= k < |trace| ==>
                AtMostOneOn(trace[k].control)
    {
      var ssd := Table;
      ghost var d, c0, t0 := dig[..], controlPort, trace;
      ghost var c1, c2, c3 := Pulse(c0, 0), Pulse(Pulse(c0, 0), 1), Pulse(Pulse(Pulse(c0, 0), 1), 2);
      ghost var p0, p1 := Position(Table[d[0]], c0, 0), Position(Table[d[1]], c1, 1);
      ghost var p2, p3 := Position(Table[d[2]], c2, 2), Position(Table[d[3]], c3, 3);
      ShowPosition(ssd[dig[0]], 0);
      assert trace == t0 + p0;
      ShowPosition(ssd[dig[1]], 1);
      assert trace == t0 + p0 + p1;
      ShowPosition(ssd[dig[2]], 2);
      assert trace == t0 + p0 + p1 + p2;
      ShowPosition(ssd[dig[3]], 3);
      assert trace == t0 + p0 + p1 + p2 + p3;
      assert trace[|t0|..] == p0 + p1 + p2 + p3;
      ScanUnrolled(d, c0);
      RenderFacts(d, c0);
    }

    /** One pass of the main loop: decode the count, then render it. */
    method MainIteration()
      requires Valid()
      modifies this`numeralPort, this`controlPort, this`trace, dig
      ensures Valid() && event == old(event)
      ensures dig[..] == Digits(event)
      ensures |trace| == |old(trace)| + 12
      ensures trace[..|old(trace)|] == old(trace)
      ensures trace[|old(trace)|..] == Scan(Digits(event), old(controlPort), 0)
      ensures numeralPort == Table[Digits(event)[3]]
      ensures controlPort == old(controlPort) & 0xF0
      ensures AllOff(old(controlPort)) ==> forall k :: |old(trace)| <= k < |trace| ==>
                AtMostOneOn(trace[k].control)
    {
      Decode(event);
      Display();
    }

    /** `n` rising edges arriving one after another, each handled by the
        interrupt handler. */
    method HandleEdges(n: nat)
      modifies this`event
      ensures event == Edges(old(event), n)
    {
      var j := 0;
      while j < n
        invariant 0 <= j <= n
        invariant event == Edges(old(event), j)
      {
        OnEdge();
        j := j + 1;
      }
    }

    /** `edges` rising edges are handled, then one pass of the main loop
        decodes and renders the new count. */
    method EdgesThenPass(edges: nat)
      requires Valid()
      modifies this, dig
      ensures Valid()
      ensures event == Edges(old(event), edges)
      ensures dig[..] == Digits(event)
      ensures |trace| == |old(trace)| + 12
      ensures trace[..|old(trace)|] == old(trace)
      ensures trace[|old(trace)|..] == Scan(Digits(event), old(controlPort), 0)
      ensures numeralPort == Table[Digits(event)[3]]
      ensures controlPort == old(controlPort) & 0xF0
      ensures AllOff(old(controlPort)) ==> forall k :: |old(trace)| <= k < |trace| ==>
                AtMostOneOn(trace[k].control)
    {
      HandleEdges(edges);
      MainIteration();
    }

    /**
      The state after the first `k` passes of a run over `schedule` that
      started from count `e0`, control value `c0` and trace `t0`, where
      `shown` lists what each pass renders.
     */
    ghost predicate RunSoFar(schedule: seq<nat>, k: nat, e0: u16, c0: bv8, t0: seq<PortState>,
                             shown: seq<seq<PortState>>)
      reads this, dig
    {
      && k <= |schedule| == |shown|
      && Valid()
      && event == Edges(e0, Total(schedule[..k]))
      && |trace| == |t0| + 12 * k
      && trace[..|t0|] == t0
      && (forall p :: 0 <= p < k ==> Pass(trace, |t0|, p) == shown[p])
      && (k > 0 ==> dig[..] == Digits(event) && numeralPort == Table[Digits(event)[3]])
      && controlPort == (if k > 0 then c0 & 0xF0 else c0)
      && (AllOff(c0) ==> AllOff(controlPort))
      && (AllOff(c0) ==> forall m :: |t0| <= m < |trace| ==> AtMostOneOn(trace[m].control))
    }

    /** Pass `k` of a run: its edges are handled, then the main loop decodes
        and renders the count. */
    method RunPass(schedule: seq<nat>, k: nat, ghost e0: u16, ghost c0: bv8, ghost t0: seq<PortState>,
                   ghost shown: seq<seq<PortState>>)
      requires k < |schedule| && RunSoFar(schedule, k, e0, c0, t0, shown)
      requires InRange(e0) && shown[k] == Shown(e0, c0, schedule, k)
      modifies this, dig
      ensures RunSoFar(schedule, k + 1, e0, c0, t0, shown)
    {
      ghost var before := trace;
      EdgesThenPass(schedule[k]);
      EdgesOfSchedule(e0, schedule, k);
      ExtendsTrace(t0, before, trace, AllOff(c0));
      assert trace[|before|..] == shown[k];
      PassesStep(before, trace, |t0|, shown, k);
    }

    /**
      A bounded run of the main loop: before pass `k`, `schedule[k]` edges
      arrive and are handled; then the pass decodes and renders the count.
     */
    method Run(schedule: seq<nat>)
      requires Valid()
      modifies this, dig
      ensures Valid()
      ensures event == Edges(old(event), Total(schedule))
      ensures event == (old(event) + Total(schedule)) % (MaxCount + 1)
      ensures |trace| == |old(trace)| + 12 * |schedule|
      ensures trace[..|old(trace)|] == old(trace)
      ensures forall p :: 0 <= p < |schedule| ==>
                Pass(trace, |old(trace)|, p) == Shown(old(event), old(controlPort), schedule, p)
      ensures schedule != [] ==> dig[..] == Digits(event)
      ensures schedule != [] ==> numeralPort == Table[Digits(event)[3]]
      ensures schedule != [] ==> controlPort == old(controlPort) & 0xF0
      ensures schedule == [] ==> numeralPort == old(numeralPort) && controlPort == old(controlPort)
      ensures schedule == [] ==> dig[..] == old(dig[..])
      ensures AllOff(old(controlPort)) ==> forall k :: |old(trace)| <= k < |trace| ==>
                AtMostOneOn(trace[k].control)
    {
      ghost var e0, c0, t0 := event, controlPort, trace;
      ghost var shown := seq(|schedule|, p requires 0 <= p < |schedule| => Shown(e0, c0, schedule, p));
      var k := 0;
      while k < |schedule|
        invariant RunSoFar(schedule, k, e0, c0, t0, shown)
        invariant k == 0 ==> numeralPort == old(numeralPort) && dig[..] == old(dig[..])
      {
        RunPass(schedule, k, e0, c0, t0, shown);
        k := k + 1;
      }
      assert schedule[..k] == schedule;
      EdgesAreModular(e0, Total(schedule));
    }
  }
}
