/**
  The decoder: splits a 16-bit value into its thousands, hundreds, tens and
  units, most significant first, as stored in the four-byte digit buffer.
 */
module Decoder {
  import opened Bytes

  /** A four-place decimal numeral: four entries, each a decimal digit. */
  predicate IsDecimal(d: seq<int>) {
    |d| == 4 && forall k :: 0 <= k < 4 ==> 0 <= d[k] <= 9
  }

  /**
    The four places of `v`. Every entry fits in a byte for every 16-bit
    input, so storing them in a `uint8_t` buffer never truncates.
   */
  function Digits(v: u16): (d: seq<int>)
    ensures |d| == 4
    ensures forall k :: 0 <= k < 4 ==> 0 <= d[k] < 0x100
    ensures d[0] <= 65
  {
    [v / 1000, (v % 1000) / 100, (v % 100) / 10, v % 10]
  }

  /** The number a four-place numeral stands for. */
  function Value(d: seq<int>): (v: int)
    requires |d| == 4
  {
    1000 * d[0] + 100 * d[1] + 10 * d[2] + d[3]
  }

  /** Decoding loses nothing: the places add up to the value, for every
      16-bit input (the leading place may exceed 9). */
  lemma ValueOfDigits(v: u16)
    ensures Value(Digits(v)) == v
  {
    assert v == 1000 * (v / 1000) + v % 1000;
    assert v % 1000 == 100 * ((v % 1000) / 100) + (v % 1000) % 100;
    assert (v % 1000) % 100 == v % 100;
    assert v % 100 == 10 * ((v % 100) / 10) + v % 10;
  }

  /** The places are all decimal digits exactly when the value fits on four
      decimal places. */
  lemma DigitsDecimalIff(v: u16)
    ensures IsDecimal(Digits(v)) <==> v <= 9999
  {
  }

  /** Every four-place numeral is decoded from its own value. */
  lemma DigitsOfValue(d: seq<int>)
    requires IsDecimal(d)
    ensures 0 <= Value(d) <= 9999
    ensures Digits(Value(d)) == d
  {
    var v := Value(d);
    var r := 100 * d[1] + 10 * d[2] + d[3];
    assert 0 <= r < 1000;
    assert v == 1000 * d[0] + r;
    assert v / 1000 == d[0] && v % 1000 == r;
    var s := 10 * d[2] + d[3];
    assert 0 <= s < 100;
    assert r / 100 == d[1] && r % 100 == s;
    assert v % 100 == s by {
      assert v == 100 * (10 * d[0] + d[1]) + s;
    }
    assert s / 10 == d[2] && s % 10 == d[3];
    assert v % 10 == d[3] by {
      assert v == 10 * (100 * d[0] + 10 * d[1] + d[2]) + d[3];
    }
  }

  /** Leading zeros are kept: 7 is decoded as 0, 0, 0, 7. */
  lemma LeadingZeros()
    ensures Digits(7) == [0, 0, 0, 7]
    ensures Digits(9999) == [9, 9, 9, 9]
  {
  }
}
