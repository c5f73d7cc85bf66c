/** The 32-bit microsecond clock and its modular comparison. */
module ClockTime {

  const TWO31: int := 0x8000_0000
  const TWO32: int := 0x1_0000_0000

  type Int32 = x: int | -TWO31 <= x < TWO31

  /** The value of the low 32 bits of x, as a signed int. */
  function Low32(x: int): (r: Int32)
    ensures exists k: int {:trigger k * TWO32} :: r == x - k * TWO32
  {
    var m := x % TWO32;
    assert m == x - (x / TWO32) * TWO32;
    if m < TWO31 then m else
      assert m - TWO32 == x - (x / TWO32 + 1) * TWO32;
      m - TWO32
  }

  /** Time_AFTER: the high bit of the wrapped difference t2 - t1. */
  predicate TimeAfter(t1: Int32, t2: Int32) {
    Low32(t2 - t1) < 0
  }

  /** Two true times near enough for the modular comparison, in either order. */
  predicate Near(a: int, b: int) {
    -TWO31 < b - a < TWO31
  }

  lemma Low32Shift(x: int, k: int)
    ensures Low32(x + k * TWO32) == Low32(x)
  {
    assert (x + k * TWO32) % TWO32 == x % TWO32;
  }

  lemma Low32Small(x: int)
    requires -TWO31 <= x < TWO31
    ensures Low32(x) == x
  {
  }

  lemma Low32Diff(a: int, b: int)
    ensures Low32(Low32(b) - Low32(a)) == Low32(b - a)
  {
    var i: int :| Low32(b) == b - i * TWO32;
    var j: int :| Low32(a) == a - j * TWO32;
    assert Low32(b) - Low32(a) == (b - a) + (j - i) * TWO32;
    Low32Shift(b - a, j - i);
  }

  /** On stored times the modular comparison decides which true time is later, exactly when the true
      times are less than 2^31 apart; at a difference of 2^31 to 2^32 it gives the opposite answer. */
  lemma TimeAfterIsAfter(a: int, b: int)
    requires -TWO31 <= b - a < TWO31
    ensures TimeAfter(Low32(a), Low32(b)) <==> a > b
  {
    Low32Diff(a, b);
    Low32Small(b - a);
  }

  lemma TimeAfterFails(a: int, b: int)
    requires TWO31 <= b - a < TWO32 || -TWO32 <= b - a < -TWO31
    ensures TimeAfter(Low32(a), Low32(b)) <==> !(a > b)
  {
    Low32Diff(a, b);
  }
}
