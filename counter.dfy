/**
  The edge counter: the INT0 interrupt handler increments the shared
  16-bit `event` on every rising edge and resets it to 0 once it no longer
  fits on four decimal digits.
 */
module EventCounter {
  import opened Bytes

  /** The largest count the four-digit display can show. */
  const MaxCount: int := 9999

  /** The counter invariant: the count can be shown on the display. */
  predicate InRange(e: int) {
    0 <= e <= MaxCount
  }

  /**
    One rising edge: `event++` (16-bit) followed by the reset when the
    result exceeds 9999. Defined for every 16-bit value, as the handler is.
   */
  function Step(e: u16): (r: u16)
    ensures InRange(r)
    ensures e < MaxCount ==> r == e + 1
    ensures e >= MaxCount ==> r == 0
  {
    var n := Inc16(e);
    if n > MaxCount then 0 else n
  }

  /** From a count the display can show, the increment never wraps 16 bits:
      the largest value ever stored is 10000, which is reset at once. */
  lemma NoOverflow(e: u16)
    requires InRange(e)
    ensures Inc16(e) == e + 1 <= MaxCount + 1
  {
  }

  /** One edge is addition modulo 10000 on the counter's range. */
  lemma StepIsModular(e: u16)
    requires InRange(e)
    ensures Step(e) == (e + 1) % (MaxCount + 1)
  {
  }

  /** The count after `n` edges starting from `e`: displayable when `e` is,
      and after at least one edge whatever 16-bit value `e` is. */
  function Edges(e: u16, n: nat): (r: u16)
    ensures InRange(e) || n > 0 ==> InRange(r)
    decreases n
  {
    if n == 0 then e else Step(Edges(e, n - 1))
  }

  /** Adding one commutes with reducing modulo 10000. */
  lemma ModSucc(a: nat)
    ensures (a % (MaxCount + 1) + 1) % (MaxCount + 1) == (a + 1) % (MaxCount + 1)
  {
  }

  /** After `n` edges from a displayable count `e`, the count is
      `(e + n) mod 10000`. */
  lemma {:induction false} EdgesAreModular(e: u16, n: nat)
    requires InRange(e)
    ensures Edges(e, n) == (e + n) % (MaxCount + 1)
    decreases n
  {
    if n > 0 {
      EdgesAreModular(e, n - 1);
      var p := Edges(e, n - 1);
      assert p == (e + n - 1) % (MaxCount + 1);
      StepIsModular(p);
      ModSucc(e + n - 1);
    }
  }

  /** Edges accumulate: `a` edges followed by `b` edges are `a + b` edges. */
  lemma {:induction false} EdgesCompose(e: u16, a: nat, b: nat)
    ensures Edges(Edges(e, a), b) == Edges(e, a + b)
    decreases b
  {
    if b > 0 {
      EdgesCompose(e, a, b - 1);
    }
  }

  /** From the initial value 0, the count after `n` edges is `n mod 10000`. */
  lemma EdgesFromZero(n: nat)
    ensures Edges(0, n) == n % (MaxCount + 1)
    ensures InRange(Edges(0, n))
  {
    EdgesAreModular(0, n);
  }

  /** The wrap-around boundary: 9999 is followed by 0, never 10000. */
  lemma WrapBoundary()
    ensures Step(MaxCount) == 0
    ensures Edges(MaxCount, 1) == 0
  {
  }
}
