/**
 * The 32-bit integer semantics of the shift operators the tilemap property
 * arithmetic uses. In the host language `a >> b` and `a << b` first convert
 * `a` to a signed 32-bit integer and use only the low five bits of `b`.
 */
module Int32 {

  const TWO31: int := 0x8000_0000
  const TWO32: int := 0x1_0000_0000

  function Pow2(n: nat): (r: nat)
    ensures r >= 1
  {
    if n == 0 then 1 else 2 * Pow2(n - 1)
  }

  /** The host's ToInt32 conversion: wrap modulo 2^32 into [-2^31, 2^31). */
  function ToInt32(x: int): (r: int)
    ensures -TWO31 <= r < TWO31
    ensures (x - r) % TWO32 == 0
    ensures -TWO31 <= x < TWO31 ==> r == x
  {
    var m := x % TWO32;
    if m >= TWO31 then m - TWO32 else m
  }

  /** `a << b`: the shifted bit pattern, read back as a signed 32-bit integer. */
  function ShiftLeft(a: int, b: int): (r: int)
    ensures -TWO31 <= r < TWO31
  {
    ToInt32(ToInt32(a) * Pow2(b % 32))
  }

  /**
   * `a >> b`: the sign-propagating shift, which rounds towards negative
   * infinity; Dafny's division by a positive divisor rounds the same way.
   */
  function ShiftRight(a: int, b: int): (r: int)
    ensures -TWO31 <= r < TWO31
    ensures ToInt32(a) >= 0 ==> 0 <= r <= ToInt32(a)
    ensures ToInt32(a) < 0 ==> ToInt32(a) <= r < 0
  {
    var x, p := ToInt32(a), Pow2(b % 32);
    DivisionShrinks(x, p);
    x / p
  }

  lemma {:induction false} Pow2Monotone(m: nat, n: nat)
    requires m <= n
    ensures Pow2(m) <= Pow2(n)
  {
    if m < n {
      Pow2Monotone(m, n - 1);
    }
  }

  lemma Pow2Of31()
    ensures Pow2(31) == TWO31
  {
    assert Pow2(8) == 0x100;
    assert Pow2(16) == 0x1_0000;
    assert Pow2(24) == 0x100_0000;
  }

  /** Below 31, a power of two is a positive 32-bit integer. */
  lemma Pow2Below31(n: nat)
    requires n < 31
    ensures 2 * Pow2(n) <= TWO31
  {
    Pow2Monotone(n + 1, 31);
    Pow2Of31();
  }

  /** For non-negative 32-bit operands the right shift is division by 2^b. */
  lemma ShiftRightIsDivision(a: int, b: nat)
    requires 0 <= a < TWO31 && b < 32
    ensures ShiftRight(a, b) == a / Pow2(b)
  {
    assert b % 32 == b;
    assert ToInt32(a) == a;
  }

  /** Without overflow, the left shift is multiplication by 2^b. */
  lemma ShiftLeftIsMultiplication(a: int, b: nat)
    requires b < 32 && 0 <= a && a * Pow2(b) < TWO31
    ensures ShiftLeft(a, b) == a * Pow2(b)
  {
    var p := Pow2(b);
    assert b % 32 == b;
    MultipleGrows(a, p);
    assert ToInt32(a) == a;
    assert ShiftLeft(a, b) == ToInt32(a * p);
  }

  // Arithmetic hints for the solver, which cannot find these steps on its
  // own in the contexts where they are needed.

  /** Hint: division by a positive number moves a value towards zero, without crossing it. */
  lemma DivisionShrinks(x: int, p: nat)
    requires p >= 1
    ensures x >= 0 ==> 0 <= x / p <= x
    ensures x < 0 ==> x <= x / p < 0
  {
    var q, r := x / p, x % p;
    assert x == q * p + r && 0 <= r < p;
    if x >= 0 {
      if q < 0 {
        MultipleGrows(p, -q);
        assert false;
      }
      MultipleGrows(q, p);
    } else {
      if q >= 0 {
        MultipleGrows(q, p);
        assert false;
      }
      MultipleGrows(p - 1, -q);
      assert (-q) * (p - 1) == q - q * p;
    }
  }

  /** Hint: the quotient and remainder bound a value between consecutive multiples. */
  lemma DivisionBounds(a: nat, p: nat)
    requires p >= 1
    ensures (a / p) * p <= a < (a / p + 1) * p
  {
    assert a == (a / p) * p + a % p;
  }

  /** Hint: multiplying by a positive number does not shrink a natural number, and doubling or more grows a positive one. */
  lemma MultipleGrows(a: nat, p: nat)
    requires p >= 1
    ensures a <= a * p
    ensures a > 0 && p >= 2 ==> a < a * p && a / p < a
  {
  }
}
