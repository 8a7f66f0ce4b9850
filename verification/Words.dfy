/** 64-bit machine words: unsigned integers with the wrap-around, shifts and bit operations of C++. */
module Words {
  const WORD := 0x1_0000_0000_0000_0000

  type Word = x: int | 0 <= x < WORD

  type Byte = x: int | 0 <= x < 256

  function Pow2(n: nat): (r: int)
    ensures r >= 1
  {
    if n == 0 then 1 else 2 * Pow2(n - 1)
  }

  function Add(a: Word, b: Word): Word { (a + b) % WORD }

  function Sub(a: Word, b: Word): Word { (a - b) % WORD }

  function Mul(a: Word, b: Word): Word { (a * b) % WORD }

  function Shl(a: Word, k: nat): Word
    requires k < 64
  {
    a * Pow2(k) % WORD
  }

  function Shr(a: Word, k: nat): Word
    requires k < 64
  {
    DropBound(a, k);
    Drop(a, k)
  }

  /** The number without its k lowest bits. */
  function Drop(a: nat, k: nat): nat {
    DivBound(a, Pow2(k));
    a / Pow2(k)
  }

  /** Bitwise or and exclusive or, bit by bit from the lowest. */
  function Or(a: nat, b: nat): nat
    decreases a + b
  {
    if a == 0 && b == 0 then 0 else 2 * Or(a / 2, b / 2) + (if a % 2 == 1 || b % 2 == 1 then 1 else 0)
  }

  function Xor(a: nat, b: nat): nat
    decreases a + b
  {
    if a == 0 && b == 0 then 0 else 2 * Xor(a / 2, b / 2) + (if a % 2 == b % 2 then 0 else 1)
  }

  function Or64(a: Word, b: Word): Word {
    Pow2Of64();
    OrBound(a, b, 64);
    Or(a, b)
  }

  function Xor64(a: Word, b: Word): Word {
    Pow2Of64();
    XorBound(a, b, 64);
    Xor(a, b)
  }

  // ---------------------------------------------------------------- powers, division

  /** A product with a positive number is at least as far from zero as that number. */
  lemma Multiple(k: int, d: int)
    requires d >= 1
    ensures k >= 1 ==> k * d >= d && k * d >= k
    ensures k <= -1 ==> k * d <= -d
    ensures k == 0 ==> k * d == 0
  {
    if k >= 1 {
      assert (k - 1) * d >= 0 && k * (d - 1) >= 0;
      assert k * d == (k - 1) * d + d && k * d == k * (d - 1) + k;
    } else if k <= -1 {
      assert (-k - 1) * d >= 0;
      assert k * d == -((-k - 1) * d) - d;
    }
  }

  lemma DivBound(x: int, d: int)
    requires x >= 0 && d >= 1
    ensures 0 <= x / d <= x
  {
    Multiple(x / d, d);
    assert x == x / d * d + x % d;
  }

  lemma DropBound(a: nat, k: nat)
    ensures Drop(a, k) <= a
  {
    DivBound(a, Pow2(k));
  }

  lemma {:induction false} Pow2Add(a: nat, b: nat)
    ensures Pow2(a + b) == Pow2(a) * Pow2(b)
    decreases b
  {
    if b > 0 {
      Pow2Add(a, b - 1);
      assert Pow2(a + b) == 2 * Pow2(a + b - 1);
    }
  }

  lemma {:induction false} Pow2Monotone(a: nat, b: nat)
    requires a <= b
    ensures Pow2(a) <= Pow2(b)
    ensures a < b ==> 2 * Pow2(a) <= Pow2(b)
    decreases b
  {
    if a < b { Pow2Monotone(a, b - 1); }
  }

  lemma Pow2Of64()
    ensures Pow2(64) == WORD
  {
    assert Pow2(8) == 256;
    Pow2Add(8, 8);
    Pow2Add(16, 16);
    Pow2Add(32, 32);
  }

  /** Quotient and remainder are determined by the equation and the bound. */
  lemma DivModUnique(x: int, d: int, q: int, r: int)
    requires d > 0 && 0 <= r < d && x == q * d + r
    ensures x / d == q && x % d == r
  {
    var q', r' := x / d, x % d;
    assert x == q' * d + r';
    assert (q - q') * d == r' - r by { assert (q - q') * d == q * d - q' * d; }
    Multiple(q - q', d);
  }

  /** Adding whole multiples of d changes the quotient by their number and not the remainder. */
  lemma AddMultiple(x: int, k: int, d: int)
    requires d > 0
    ensures (x + k * d) % d == x % d && (x + k * d) / d == x / d + k
  {
    var q := x / d;
    assert (q + k) * d == q * d + k * d;
    DivModUnique(x + k * d, d, q + k, x % d);
  }

  lemma DivDiv(x: int, a: int, b: int)
    requires x >= 0 && a > 0 && b > 0
    ensures a * b > 0 && x / a / b == x / (a * b)
  {
    var q, r := x / a, x % a;
    var q2, r2 := q / b, q % b;
    Multiple(b, a);
    assert a * b == b * a;
    assert x == q * a + r;
    assert q == q2 * b + r2;
    Distribute(q2 * b, r2, a);
    assert q2 * b * a == q2 * (a * b);
    Rest(r2, b, r, a);
    DivModUnique(x, a * b, q2, r2 * a + r);
  }

  lemma Distribute(x: int, y: int, z: int)
    ensures (x + y) * z == x * z + y * z
    ensures z * (x + y) == z * x + z * y
  {
  }

  lemma Subtract(x: int, y: int, z: int)
    ensures (x - y) * z == x * z - y * z
  {
  }

  lemma ProductBelow(x: int, p: int, q: int)
    requires p >= 1 && 0 <= x < p * q
    ensures 0 <= x / p < q
  {
    DivBound(x, p);
    var h := x / p;
    assert h * p <= x;
    Multiple(h - q, p);
    Subtract(h, q, p);
    assert q * p == p * q;
  }

  lemma Rest(r2: int, b: int, r: int, a: int)
    requires 0 <= r2 < b && 0 <= r < a
    ensures 0 <= r2 * a + r < a * b
  {
    Multiple(r2, a);
    Multiple(b - r2, a);
    Distribute(b - r2, r2, a);
    assert a * b == b * a;
  }

  // ---------------------------------------------------------------- bit operations

  lemma {:induction false} OrBound(a: nat, b: nat, n: nat)
    requires a < Pow2(n) && b < Pow2(n)
    ensures Or(a, b) < Pow2(n)
    decreases n
  {
    if n > 0 && (a != 0 || b != 0) { OrBound(a / 2, b / 2, n - 1); }
  }

  lemma {:induction false} XorBound(a: nat, b: nat, n: nat)
    requires a < Pow2(n) && b < Pow2(n)
    ensures Xor(a, b) < Pow2(n)
    decreases n
  {
    if n > 0 && (a != 0 || b != 0) { XorBound(a / 2, b / 2, n - 1); }
  }

  lemma {:induction false} OrZero(a: nat)
    ensures Or(a, 0) == a && Or(0, a) == a
  {
    if a > 0 { OrZero(a / 2); }
  }

  lemma {:induction false} XorZero(a: nat)
    ensures Xor(a, 0) == a && Xor(0, a) == a
  {
    if a > 0 { XorZero(a / 2); }
  }

  /** Or and exclusive or of numbers without a common bit are sums: b below 2^k, a a multiple of 2^k. */
  lemma {:induction false} DisjointBits(a: nat, b: nat, k: nat)
    requires a % Pow2(k) == 0 && b < Pow2(k)
    ensures Or(a, b) == a + b && Xor(a, b) == a + b && Xor(b, a) == a + b
    decreases k
  {
    if k == 0 {
      OrZero(a);
      XorZero(a);
    } else {
      var p := Pow2(k - 1);
      var q := a / Pow2(k);
      assert a == q * (2 * p);
      assert a == 2 * (q * p);
      AddMultiple(0, q, p);
      DisjointBits(a / 2, b / 2, k - 1);
    }
  }

  lemma XorParts(a: nat, b: nat)
    ensures Xor(a, b) / 2 == Xor(a / 2, b / 2) && Xor(a, b) % 2 == (if a % 2 == b % 2 then 0 else 1)
  {
  }

  lemma {:induction false} XorCancel(a: nat, b: nat)
    ensures Xor(Xor(a, b), b) == a
    decreases a + b
  {
    if b == 0 {
      XorZero(a);
    } else {
      hide Xor;
      XorCancel(a / 2, b / 2);
      XorParts(a, b);
      XorParts(Xor(a, b), b);
    }
  }

  lemma {:induction false} XorCommutes(a: nat, b: nat)
    ensures Xor(a, b) == Xor(b, a)
    decreases a + b
  {
    if a != 0 || b != 0 { XorCommutes(a / 2, b / 2); }
  }

  lemma {:induction false} XorShift(a: nat, b: nat, k: nat)
    ensures Drop(Xor(a, b), k) == Xor(Drop(a, k), Drop(b, k))
    decreases k
  {
    if k > 0 {
      DropHalf(a, k);
      DropHalf(b, k);
      DropHalf(Xor(a, b), k);
      XorShift(a / 2, b / 2, k - 1);
      assert Xor(a, b) / 2 == Xor(a / 2, b / 2);
    }
  }

  lemma DropHalf(a: nat, k: nat)
    requires k > 0
    ensures Drop(a, k) == Drop(a / 2, k - 1)
  {
    DivDiv(a, 2, Pow2(k - 1));
  }

  lemma DropTwice(a: nat, k: nat, l: nat)
    ensures Drop(Drop(a, k), l) == Drop(a, k + l)
  {
    DivDiv(a, Pow2(k), Pow2(l));
    Pow2Add(k, l);
  }
}
