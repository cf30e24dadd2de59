/**
 * Facts about multiples and powers of two that the page and word rounding
 * of the allocator and the index growth rely on.
 */
module Arithmetic {

  predicate IsPowerOfTwo(x: nat)
  {
    x == 1 || (x >= 2 && x % 2 == 0 && IsPowerOfTwo(x / 2))
  }

  lemma MulMono(a: nat, b: nat, m: nat)
    requires a <= b
    ensures a * m <= b * m
  {
  }

  /** Division by m is determined by any quotient and remainder in range. */
  lemma DivModUnique(x: nat, m: nat, q: nat, r: nat)
    requires 0 <= r < m && x == q * m + r
    ensures x / m == q && x % m == r
  {
    var d, e := x / m, x % m;
    assert x == d * m + e;
    if d > q {
      assert (d - q) * m == r - e;
      MulMono(1, d - q, m);
    } else if d < q {
      assert (q - d) * m == e - r;
      MulMono(1, q - d, m);
    }
  }

  lemma MulMod(q: nat, m: nat)
    requires m > 0
    ensures (q * m) % m == 0
  {
    DivModUnique(q * m, m, q, 0);
  }

  lemma Quotient(x: nat, m: nat)
    requires m > 0 && x % m == 0
    ensures x == (x / m) * m
  {
  }

  lemma SumMultiple(x: nat, y: nat, m: nat)
    requires m > 0 && x % m == 0 && y % m == 0
    ensures (x + y) % m == 0
  {
    Quotient(x, m);
    Quotient(y, m);
    var a, b := x / m, y / m;
    assert x + y == (a + b) * m;
    MulMod(a + b, m);
  }

  /** Of two multiples of m less than m apart, the first is not above the second. */
  lemma MultipleBelow(x: nat, h: nat, m: nat)
    requires m > 0 && x % m == 0 && h % m == 0 && x < h + m
    ensures x <= h
  {
    Quotient(x, m);
    Quotient(h, m);
    var a, b := x / m, h / m;
    assert (b + 1) * m == h + m;
    if a > b {
      MulMono(b + 1, a, m);
    }
  }

  /** A smaller power of two divides a larger one. */
  lemma {:induction false} PowerOfTwoDivides(a: nat, b: nat)
    requires IsPowerOfTwo(a) && IsPowerOfTwo(b) && a <= b
    ensures b % a == 0
    decreases b
  {
    if a == 1 {
      MulMod(b, 1);
    } else {
      PowerOfTwoDivides(a / 2, b / 2);
      Quotient(b / 2, a / 2);
      var k := (b / 2) / (a / 2);
      assert b == 2 * (k * (a / 2));
      assert b == k * a;
      MulMod(k, a);
    }
  }

  /** The next power of two above a is at least twice a. */
  lemma PowerOfTwoBelow(a: nat, b: nat)
    requires IsPowerOfTwo(a) && IsPowerOfTwo(b) && a < b
    ensures 2 * a <= b
  {
    PowerOfTwoDivides(a, b);
    Quotient(b, a);
    var k := b / a;
    assert k != 0 && k != 1;
    MulMono(2, k, a);
  }

  lemma Double(x: nat)
    requires IsPowerOfTwo(x)
    ensures IsPowerOfTwo(2 * x)
  {
    assert (2 * x) / 2 == x;
  }

  /** The square of a power of two is a power of two. */
  lemma {:induction false} Square(x: nat)
    requires IsPowerOfTwo(x)
    ensures IsPowerOfTwo(x * x)
    decreases x
  {
    if x > 1 {
      var y := x / 2;
      Square(y);
      assert x == 2 * y;
      assert x * x == 2 * (2 * (y * y));
      Double(y * y);
      Double(2 * (y * y));
    }
  }
}
