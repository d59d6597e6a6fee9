/** Go's 64-bit `int`: its range, two's-complement wrap-around and truncating division. */
module GoInt {

  const MinInt: int := -0x8000_0000_0000_0000
  const MaxInt: int := 0x7FFF_FFFF_FFFF_FFFF
  const TwoTo64: int := 0x1_0000_0000_0000_0000

  /** The values a Go `int` can hold on a 64-bit platform. */
  type Int = x: int | MinInt <= x <= MaxInt

  /** The result of a 64-bit two's-complement operation whose exact result is `x`. */
  function Wrap(x: int): (r: Int)
    ensures (r - x) % TwoTo64 == 0
    ensures MinInt <= x <= MaxInt ==> r == x
  {
    var m := (x - MinInt) % TwoTo64;
    m + MinInt
  }

  /** The bit pattern of `x` read as a `uint64`, which is what Go's `uint64(x)` yields. */
  function AsUint64(x: Int): (r: nat)
    ensures r < TwoTo64
    ensures (r - x) % TwoTo64 == 0
    ensures x >= 0 ==> r == x
    ensures x < 0 ==> r == x + TwoTo64
  {
    if x >= 0 then x else x + TwoTo64
  }

  /** Go's `/` on integers: the quotient truncated toward zero. */
  function TruncDiv(a: int, b: int): int
    requires b != 0
  {
    var q := Abs(a) / Abs(b);
    if (a < 0) == (b < 0) then q else -q
  }

  function Abs(x: int): nat { if x < 0 then -x else x }

  /**
   * The truncated quotient is the one the Go language defines: with
   * `r := a - q * b`, `|r| < |b|` and `r` is zero or has the sign of `a`.
   */
  lemma TruncDivIsGoDivision(a: int, b: int)
    requires b != 0
    ensures var q := TruncDiv(a, b); var r := a - q * b;
      Abs(r) < Abs(b) && (r == 0 || (r < 0) == (a < 0))
  {
    var q0 := Abs(a) / Abs(b);
    var r0 := Abs(a) % Abs(b);
    assert Abs(a) == q0 * Abs(b) + r0;
    var q := TruncDiv(a, b);
    if a >= 0 && b > 0 {
      assert a - q * b == r0;
    } else if a >= 0 && b < 0 {
      assert q == -q0;
      assert q * b == q0 * Abs(b);
      assert a - q * b == r0;
    } else if a < 0 && b > 0 {
      assert q == -q0;
      assert q * b == -(q0 * Abs(b));
      assert a - q * b == -r0;
    } else {
      assert q == q0;
      assert q * b == -(q0 * Abs(b));
      assert a - q * b == -r0;
    }
  }

  /** Truncation and Dafny's Euclidean division differ exactly for a negative dividend with a non-zero remainder. */
  lemma TruncDivExample()
    ensures TruncDiv(10, 3) == 3 && TruncDiv(-7, 2) == -3 && -7 / 2 == -4
    ensures TruncDiv(7, -2) == -3 && TruncDiv(-7, -2) == 3
  {
  }
}
