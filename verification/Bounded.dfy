/** The machine integers of the source, and the little modular arithmetic the proofs need. */
module Bounded {

  const TWO_TO_THE_32: int := 0x1_0000_0000
  const TWO_TO_THE_64: int := 0x1_0000_0000_0000_0000

  type U8 = x: int | 0 <= x < 0x100
  type U32 = x: int | 0 <= x < TWO_TO_THE_32
  type U64 = x: int | 0 <= x < TWO_TO_THE_64

  /** `u8::wrapping_add(1)`. */
  function Succ8(x: U8): U8 {
    (x + 1) % 256
  }

  /** `u8::wrapping_sub`. */
  function Sub8(x: U8, y: U8): U8 {
    (x - y) % 256
  }

  /** `u8::wrapping_add`. */
  function Add8(x: U8, y: U8): U8 {
    (x + y) % 256
  }

  lemma SuccOfMod(n: int)
    ensures Succ8(n % 256) == (n + 1) % 256
  {
  }

  /** The wrapped difference of two unbounded numbers less than one turn apart is their difference. */
  lemma SubOfMod(a: int, b: int)
    requires b <= a < b + 256
    ensures Sub8(a % 256, b % 256) == a - b
  {
    assert (a % 256 - b % 256 - (a - b)) % 256 == 0;
  }

  lemma AddOfMod(a: int, k: U8)
    ensures Add8(k, a % 256) == (a + k) % 256
  {
  }

  lemma AddBelowTurn(a: int, origin: int, k: U8)
    requires origin + k == a - 256
    ensures Add8(k, origin % 256) == a % 256
  {
    AddOfMod(origin, k);
    assert (a - 256) % 256 == a % 256;
  }

  lemma SubAdd(x: U8, y: U8)
    ensures Add8(Sub8(x, y), y) == x
  {
  }

  lemma AddSub(x: U8, y: U8)
    ensures Sub8(Add8(x, y), y) == x
  {
  }

  /** Two numbers less than one turn apart are equal when their wrapped values are. */
  lemma ModInjective(a: int, b: int)
    requires a % 256 == b % 256
    requires -256 < a - b < 256
    ensures a == b
  {
  }

  /** A quotient and a remainder that fit are the quotient and the remainder. */
  lemma ModUnique(x: int, m: int, q: int, r: int)
    requires m > 0 && 0 <= r < m && x == m * q + r
    ensures x % m == r
  {
    var d := x / m - q;
    assert m * d == r - x % m by {
      assert x == m * (x / m) + x % m;
      assert m * d == m * (x / m) - m * q;
    }
    assert d >= 1 ==> m * d >= m;
    assert d <= -1 ==> m * d <= -m;
  }
}
