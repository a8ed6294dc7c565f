/**
 * Unsigned 64-bit arithmetic as C performs it on `uint64_t`: every result is
 * reduced modulo 2^64.
 */
module Uint64 {

  const TWO_64: int := 0x1_0000_0000_0000_0000

  /** The values of a `uint64_t`. */
  type u64 = x: int | 0 <= x < TWO_64

  /** The `uint64_t` value a mathematical result takes after wrap-around. */
  function Wrap(x: int): (r: u64)
    ensures 0 <= x < TWO_64 ==> r == x
    ensures exists k: int :: x == r + k * TWO_64
  {
    var r := x % TWO_64;
    assert x == r + (x / TWO_64) * TWO_64;
    r
  }

  /** Unsigned subtraction `a - b`: it wraps to a huge value when `b > a`. */
  function Sub64(a: u64, b: u64): (r: u64)
    ensures b <= a ==> r == a - b
    ensures a < b ==> r == a - b + TWO_64
    ensures r == 0 <==> a == b
  {
    Wrap(a - b)
  }

  /** Reducing each operand first does not change a wrapped sum. */
  lemma WrapAdd(a: int, b: int)
    ensures Wrap(Wrap(a) + Wrap(b)) == Wrap(a + b)
  {
    var qa, qb := a / TWO_64, b / TWO_64;
    assert a + b == Wrap(a) + Wrap(b) + (qa + qb) * TWO_64;
    WrapShift(Wrap(a) + Wrap(b), qa + qb);
  }

  /** Reducing the left factor first does not change a wrapped product. */
  lemma WrapMul(a: int, k: int)
    ensures Wrap(Wrap(a) * k) == Wrap(a * k)
  {
    var q := a / TWO_64;
    assert a == Wrap(a) + q * TWO_64;
    calc {
      a * k;
      (Wrap(a) + q * TWO_64) * k;
      Wrap(a) * k + (q * k) * TWO_64;
    }
    WrapShift(Wrap(a) * k, q * k);
  }

  /** Adding a multiple of 2^64 leaves the wrapped value unchanged. */
  lemma WrapShift(x: int, q: int)
    ensures Wrap(x + q * TWO_64) == Wrap(x)
  {
  }
}
