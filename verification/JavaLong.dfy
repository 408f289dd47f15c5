/** Java's 64-bit `long` and its arithmetic right shift `>>`. */
module JavaLong {

  /** The values of a Java `long`. */
  newtype Long = x: int | -0x8000_0000_0000_0000 <= x < 0x8000_0000_0000_0000

  /** 2 to the power n. */
  function Pow2(n: nat): (r: nat)
    ensures r >= 1
  {
    if n == 0 then 1 else 2 * Pow2(n - 1)
  }

  /** The arithmetic shift of a two's-complement integer by a distance n taken as it is,
      with no masking: every step drops the lowest bit and keeps the
      sign, that is, halves rounding toward negative infinity. (Dafny's `/` by a positive
      divisor already rounds that way, as Java's `/` does not for negative operands.) */
  function ShiftRight(x: int, n: nat): int
    decreases n
  {
    if n == 0 then x else ShiftRight(x / 2, n - 1)
  }

  /** One halving step of the floor-division bound: if h is x halved and h lies in the p-wide
      slot r, then x lies in the 2p-wide slot r. */
  lemma DoubleSlot(x: int, h: int, p: int, r: int)
    requires p >= 1
    requires 2 * h <= x < 2 * h + 2
    requires p * r <= h < p * r + p
    ensures (2 * p) * r <= x < (2 * p) * r + 2 * p
  {
    assert (2 * p) * r == 2 * (p * r);
  }

  /** The arithmetic shift by n is floor division by 2^n, for negative values too. */
  lemma {:induction false} ShiftRightIsFloorDivision(x: int, n: nat)
    ensures Pow2(n) * ShiftRight(x, n) <= x < Pow2(n) * (ShiftRight(x, n) + 1)
    decreases n
  {
    if n > 0 {
      var h := x / 2;
      var r := ShiftRight(h, n - 1);
      var p := Pow2(n - 1);
      ShiftRightIsFloorDivision(h, n - 1);
      assert p * (r + 1) == p * r + p;
      DoubleSlot(x, h, p, r);
      assert Pow2(n) * (r + 1) == (2 * p) * r + 2 * p;
    }
  }

  /** `x >> n` on a Java `long`: only the low six bits of the distance count, so the value is
      shifted by n % 64 (section 15.19 of the Java Language Specification), and the result is
      floor division by 2^(n % 64), a long again. */
  function ShiftRightLong(x: Long, n: nat): (r: Long)
    ensures Pow2(n % 64) * (r as int) <= x as int < Pow2(n % 64) * (r as int + 1)
  {
    ShiftRightIsFloorDivision(x as int, n % 64);
    ShiftRightInRange(x as int, n % 64);
    ShiftRight(x as int, n % 64) as Long
  }

  /** Shift distances that differ by 64 shift a long alike. */
  lemma ShiftDistanceWraps(x: Long, n: nat)
    ensures ShiftRightLong(x, n + 64) == ShiftRightLong(x, n)
  {
    assert (n + 64) % 64 == n % 64;
  }

  /** A shifted value lies between 0 and the original value, so it stays in range. */
  lemma {:induction false} ShiftRightInRange(x: int, n: nat)
    ensures x >= 0 ==> 0 <= ShiftRight(x, n) <= x
    ensures x < 0 ==> x <= ShiftRight(x, n) < 0
    decreases n
  {
    if n > 0 {
      ShiftRightInRange(x / 2, n - 1);
    }
  }
}
