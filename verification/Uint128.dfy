/** The 128-bit unsigned integer (fuzzer/uint128_t.cpp): two words, each operator as the source computes
    it, and the proof that it is integer arithmetic modulo 2^128. */
module Uint128 {
  import opened Words
  import opened Prelude

  const WIDE := WORD * WORD

  datatype U128 = U128(upper: Word, lower: Word)

  const ZERO := U128(0, 0)
  const ONE := U128(0, 1)

  function Value(u: U128): (v: int)
    ensures 0 <= v < WIDE
  {
    u.upper * WORD + u.lower
  }

  // ---------------------------------------------------------------- operators

  function Carry(b: bool): Word { if b then 1 else 0 }

  function Plus(a: U128, b: U128): U128 {
    var lower := Words.Add(a.lower, b.lower);
    U128(Words.Add(Words.Add(a.upper, b.upper), Carry(lower < a.lower)), lower)
  }

  function Minus(a: U128, b: U128): U128 {
    var lower := Words.Sub(a.lower, b.lower);
    U128(Words.Sub(Words.Sub(a.upper, b.upper), Carry(lower > a.lower)), lower)
  }

  function BitOr(a: U128, b: U128): U128 {
    U128(Or64(a.upper, b.upper), Or64(a.lower, b.lower))
  }

  predicate Greater(a: U128, b: U128) {
    if a.upper == b.upper then a.lower > b.lower else a.upper > b.upper
  }

  predicate Less(a: U128, b: U128) {
    if a.upper == b.upper then a.lower < b.lower else a.upper < b.upper
  }

  predicate AtLeast(a: U128, b: U128) { Greater(a, b) || a == b }

  function ShiftLeft(a: U128, s: U128): U128 {
    var shift := s.lower;
    if s.upper != 0 || shift >= 128 then ZERO
    else if shift == 64 then U128(a.lower, 0)
    else if shift == 0 then a
    else if shift < 64 then
      U128(Words.Add(Shl(a.upper, shift), Shr(a.lower, 64 - shift)), Shl(a.lower, shift))
    else U128(Shl(a.lower, shift - 64), 0)
  }

  function ShiftRight(a: U128, s: U128): U128 {
    var shift := s.lower;
    if s.upper != 0 || shift >= 128 then ZERO
    else if shift == 64 then U128(0, a.upper)
    else if shift == 0 then a
    else if shift < 64 then
      U128(Shr(a.upper, shift), Words.Add(Shl(a.upper, 64 - shift), Shr(a.lower, shift)))
    else U128(0, Shr(a.upper, shift - 64))
  }

  // ---------------------------------------------------------------- what they compute

  lemma AddCases(a: Word, b: Word)
    ensures Words.Add(a, b) == if a + b >= WORD then a + b - WORD else a + b
    ensures Words.Sub(a, b) == if a < b then a - b + WORD else a - b
  {
  }

  lemma WideMod(c: int, x: int)
    requires 0 <= x < WIDE
    ensures (c * WIDE + x) % WIDE == x
  {
    DivModUnique(c * WIDE + x, WIDE, c, x);
  }

  lemma PlusIsAddition(a: U128, b: U128)
    ensures Value(Plus(a, b)) == (Value(a) + Value(b)) % WIDE
  {
    hide Words.Add;
    var r := Plus(a, b);
    AddCases(a.lower, b.lower);
    AddCases(a.upper, b.upper);
    AddCases(Words.Add(a.upper, b.upper), Carry(r.lower < a.lower));
    var c := if a.upper + b.upper + (if a.lower + b.lower >= WORD then 1 else 0) >= WORD then 1 else 0;
    assert Value(a) + Value(b) == c * WIDE + Value(r);
    WideMod(c, Value(r));
  }

  lemma MinusIsSubtraction(a: U128, b: U128)
    ensures Value(Minus(a, b)) == (Value(a) - Value(b)) % WIDE
  {
    hide Words.Sub;
    var r := Minus(a, b);
    AddCases(a.lower, b.lower);
    AddCases(a.upper, b.upper);
    AddCases(Words.Sub(a.upper, b.upper), Carry(r.lower > a.lower));
    var c := if a.upper - b.upper - (if a.lower < b.lower then 1 else 0) < 0 then -1 else 0;
    assert Value(a) - Value(b) == c * WIDE + Value(r);
    WideMod(c, Value(r));
  }

  lemma ComparesAsValue(a: U128, b: U128)
    ensures Greater(a, b) <==> Value(a) > Value(b)
    ensures Less(a, b) <==> Value(a) < Value(b)
    ensures AtLeast(a, b) <==> Value(a) >= Value(b)
    ensures a == b <==> Value(a) == Value(b)
  {
  }

  lemma Regroup(a: int, b: int, c: int)
    ensures a * b * c == a * (b * c)
  {
  }

  lemma LowPartMoved(l: int, p: int, q: int)
    requires p >= 1 && 0 <= l < q && p * q == WORD
    ensures 0 <= l * p <= WORD - p
  {
    Multiple(l, p);
    Multiple(q - 1 - l, p);
    Subtract(q, 1 + l, p);
    Distribute(1, l, p);
    assert q * p == p * q;
  }

  /** A word times p, when p * q is the word size: the high part leaves, the low part moves up. */
  lemma ShiftedWord(x: Word, p: int, q: int)
    requires p >= 1 && q >= 1 && p * q == WORD
    ensures 0 <= x / q < p
    ensures 0 <= x % q * p <= WORD - p
    ensures x * p == x / q * WORD + x % q * p
    ensures x * p % WORD == x % q * p
  {
    ProductBelow(x, q, p);
    var h, l := x / q, x % q;
    LowPartMoved(l, p, q);
    assert x == h * q + l;
    Distribute(h * q, l, p);
    Regroup(h, q, p);
    assert q * p == p * q;
    DivModUnique(x * p, WORD, h, l * p);
  }

  /** Both shifts of one word, by k to the left and by 64 - k to the right. */
  lemma ShiftedBoth(x: Word, k: nat)
    requires 0 < k < 64
    ensures Pow2(k) * Pow2(64 - k) == WORD
    ensures Shl(x, k) == x % Pow2(64 - k) * Pow2(k) <= WORD - Pow2(k)
    ensures 0 <= Shr(x, 64 - k) == x / Pow2(64 - k) < Pow2(k)
    ensures x * Pow2(k) == Shr(x, 64 - k) * WORD + Shl(x, k)
    ensures x == Shr(x, 64 - k) * Pow2(64 - k) + x % Pow2(64 - k) && 0 <= x % Pow2(64 - k) < Pow2(64 - k)
  {
    hide Pow2;
    Pow2Add(k, 64 - k);
    Pow2Of64();
    ShiftedWord(x, Pow2(k), Pow2(64 - k));
  }

  /** The words of a shifted value, seen as an integer: c leaves at the top, h moves to the upper word. */
  lemma ShiftedValue(u: int, l: int, p: int, c: int, m: int, h: int, n: int)
    requires u * p == c * WORD + m && l * p == h * WORD + n
    ensures (u * WORD + l) * p == c * WIDE + (m + h) * WORD + n
  {
    Distribute(u * WORD, l, p);
    assert u * WORD * p == u * p * WORD;
  }

  lemma ShiftLeftShort(a: U128, k: nat)
    requires 0 < k < 64
    ensures Value(ShiftLeft(a, U128(0, k))) == Value(a) * Pow2(k) % WIDE
  {
    hide Pow2, Shl, Shr, Words.Add;
    ShiftedBoth(a.upper, k);
    ShiftedBoth(a.lower, k);
    var c, m, h, n := Shr(a.upper, 64 - k), Shl(a.upper, k), Shr(a.lower, 64 - k), Shl(a.lower, k);
    AddCases(m, h);
    ShiftedValue(a.upper, a.lower, Pow2(k), c, m, h, n);
    WideMod(c, (m + h) * WORD + n);
  }

  lemma ShiftedWide(u: int, l: int, p: int, h: int, n: int)
    requires l * p == h * WORD + n
    ensures (u * WORD + l) * (WORD * p) == (u * p + h) * WIDE + n * WORD
  {
    ShiftedValue(u, l, p, 0, u * p, h, n);
    Regroup(u * WORD + l, p, WORD);
    assert p * WORD == WORD * p;
  }

  lemma ShiftLeftLong(a: U128, k: nat)
    requires 64 < k < 128
    ensures Value(ShiftLeft(a, U128(0, k))) == Value(a) * Pow2(k) % WIDE
  {
    hide Pow2, Shl, Shr;
    Pow2Add(64, k - 64);
    Pow2Of64();
    ShiftedBoth(a.lower, k - 64);
    var p, h, n := Pow2(k - 64), Shr(a.lower, 128 - k), Shl(a.lower, k - 64);
    ShiftedWide(a.upper, a.lower, p, h, n);
    assert ShiftLeft(a, U128(0, k)) == U128(n, 0);
    WideMod(a.upper * p + h, n * WORD);
  }

  lemma ShiftLeftNone(a: U128, s: U128)
    ensures s == ZERO ==> ShiftLeft(a, s) == a && Value(a) * Pow2(0) % WIDE == Value(a)
    ensures Value(s) >= 128 ==> ShiftLeft(a, s) == ZERO
  {
  }

  lemma ShiftLeftWord(a: U128)
    ensures Value(ShiftLeft(a, U128(0, 64))) == Value(a) * Pow2(64) % WIDE
  {
    Pow2Of64();
    WideMod(a.upper, a.lower * WORD);
  }

  /** `<<` multiplies by a power of two modulo 2^128, for every shift amount. */
  lemma ShiftLeftMultiplies(a: U128, s: U128)
    ensures Value(ShiftLeft(a, s)) == if Value(s) < 128 then Value(a) * Pow2(Value(s)) % WIDE else 0
  {
    hide Shl, Shr, Words.Add, ShiftLeft;
    ShiftLeftNone(a, s);
    if Value(s) < 128 {
      assert s == U128(0, Value(s));
      if s.lower == 64 { ShiftLeftWord(a); }
      else if 0 < s.lower < 64 { ShiftLeftShort(a, s.lower); }
      else if s.lower > 64 { ShiftLeftLong(a, s.lower); }
    }
  }

  lemma ShiftedDown(u: int, l: int, p: int, q: int, t: int, n: int, r: int)
    requires q * p == WORD && u * q == t && l == n * p + r && 0 <= r < p
    ensures (u * WORD + l) / p == t + n
  {
    Regroup(u, q, p);
    Distribute(t, n, p);
    DivModUnique(u * WORD + l, p, t + n, r);
  }

  lemma ShiftRightShort(a: U128, k: nat)
    requires 0 < k < 64
    ensures Value(ShiftRight(a, U128(0, k))) == Value(a) / Pow2(k)
  {
    hide Pow2, Shl, Shr, Words.Add;
    ShiftedBoth(a.upper, 64 - k);
    ShiftedBoth(a.lower, 64 - k);
    var h, m, n, r := Shr(a.upper, k), Shl(a.upper, 64 - k), Shr(a.lower, k), a.lower % Pow2(k);
    AddCases(m, n);
    ShiftedDown(a.upper, a.lower, Pow2(k), Pow2(64 - k), h * WORD + m, n, r);
  }

  lemma ShiftRightLong(a: U128, k: nat)
    requires 64 <= k < 128
    ensures Value(ShiftRight(a, U128(0, k))) == Value(a) / Pow2(k)
  {
    Pow2Add(64, k - 64);
    Pow2Of64();
    DivModUnique(Value(a), WORD, a.upper, a.lower);
    DivDiv(Value(a), WORD, Pow2(k - 64));
  }

  /** `>>` divides by a power of two, for every shift amount. */
  lemma ShiftRightDivides(a: U128, s: U128)
    ensures Value(ShiftRight(a, s)) == if Value(s) < 128 then Value(a) / Pow2(Value(s)) else 0
  {
    if Value(s) < 128 {
      assert s == U128(0, Value(s));
      if s.lower == 0 { assert Value(a) / Pow2(0) == Value(a); }
      else if s.lower < 64 { ShiftRightShort(a, s.lower); }
      else { ShiftRightLong(a, s.lower); }
    }
  }

  // ---------------------------------------------------------------- multiplication

  const HALF := 0x1_0000_0000

  function Low(x: Word): Word { x % HALF }

  function High(x: Word): Word { x / HALF }

  lemma ProductAtMost(x: int, y: int, m: int)
    requires 0 <= x <= m && 0 <= y <= m
    ensures 0 <= x * y <= m * m
  {
    Subtract(m, x, y);
    Subtract(m, y, m);
    assert (m - x) * y >= 0 && (m - y) * m >= 0 && x * y >= 0;
    assert m * y == y * m;
  }

  function Product(x: int, y: int): int { x * y }

  lemma HalfProduct(x: Word, y: Word)
    requires x < HALF && y < HALF
    ensures Words.Mul(x, y) == Product(x, y) && IsHalfProduct(Product(x, y))
  {
    ProductAtMost(x, y, HALF - 1);
  }

  /** One limb product: what a 32 by 32 bit multiplication can give. */
  predicate IsHalfProduct(x: int) { 0 <= x <= (HALF - 1) * (HALF - 1) }

  lemma HalfParts(x: Word)
    requires IsHalfProduct(x)
    ensures x == High(x) * HALF + Low(x) && 0 <= Low(x) < HALF && 0 <= High(x) < HALF
  {
  }

  /** t times a number written in four limbs. */
  lemma TimesLimbs(t: int, b0: int, b1: int, b2: int, b3: int)
    ensures t * (((b0 * HALF + b1) * HALF + b2) * HALF + b3) ==
            ((t * b0 * HALF + t * b1) * HALF + t * b2) * HALF + t * b3
  {
    var x := (b0 * HALF + b1) * HALF + b2;
    Distribute(x * HALF, b3, t);
    var y := b0 * HALF + b1;
    Distribute(y * HALF, b2, t);
    Distribute(b0 * HALF, b1, t);
    assert t * (x * HALF) == t * x * HALF && t * (y * HALF) == t * y * HALF && t * (b0 * HALF) == t * b0 * HALF;
  }

  /** The product of two numbers in four limbs; only limb products of the lowest four ranks survive. */
  lemma LimbProduct(t0: int, t1: int, t2: int, t3: int, b0: int, b1: int, b2: int, b3: int) returns (c: int)
    ensures (((t0 * HALF + t1) * HALF + t2) * HALF + t3) * (((b0 * HALF + b1) * HALF + b2) * HALF + b3) ==
            RankSum(Product(t3, b0) + Product(t2, b1) + Product(t1, b2) + Product(t0, b3),
                    Product(t3, b1) + Product(t2, b2) + Product(t1, b3), Product(t3, b2) + Product(t2, b3), Product(t3, b3))
            + c * WIDE
  {
    var b := ((b0 * HALF + b1) * HALF + b2) * HALF + b3;
    TimesLimbs(b, t0, t1, t2, t3);
    TimesLimbs(t0, b0, b1, b2, b3);
    TimesLimbs(t1, b0, b1, b2, b3);
    TimesLimbs(t2, b0, b1, b2, b3);
    TimesLimbs(t3, b0, b1, b2, b3);
    assert b * t0 == t0 * b && b * t1 == t1 * b && b * t2 == t2 * b && b * t3 == t3 * b;
    c := (t0 * b0 * HALF + t0 * b1 + t1 * b0) * HALF + t0 * b2 + t1 * b1 + t2 * b0;
  }

  lemma Placed(x: Word)
    ensures Value(U128(Shl(x, 32), 0)) == x * HALF * WORD - Shr(x, 32) * WIDE
    ensures Value(U128(Shr(x, 32), Shl(x, 32))) == x * HALF
    ensures Value(U128(x, 0)) == x * WORD && Value(U128(0, x)) == x
  {
    hide Shl, Shr, Pow2;
    PowHalf();
    ShiftedBoth(x, 32);
  }

  /** The four accumulators put together, with the carry between them. */
  lemma Assemble(first: Word, second: Word, third: Word, fourth: Word)
    ensures Value(Plus(Plus(Plus(U128(Shl(first, 32), 0), U128(Shr(third, 32), Shl(third, 32))), U128(second, 0)),
                       U128(0, fourth)))
            == RankSum(first, second, third, fourth) % WIDE
  {
    hide Shl, Shr, Plus, Value;
    Placed(first);
    Placed(second);
    Placed(third);
    Placed(fourth);
    var a, b, c, d := U128(Shl(first, 32), 0), U128(Shr(third, 32), Shl(third, 32)), U128(second, 0), U128(0, fourth);
    PlusIsAddition(a, b);
    PlusIsAddition(Plus(a, b), c);
    PlusIsAddition(Plus(Plus(a, b), c), d);
    SumMod(Value(a), Value(b), Value(c), Value(d), Shr(first, 32));
  }

  lemma PowHalf()
    ensures Pow2(32) == HALF
  {
    Pow2Add(8, 8);
    Pow2Add(16, 16);
  }

  lemma SumMod(a: int, b: int, c: int, d: int, k: int)
    ensures (((a + b) % WIDE + c) % WIDE + d) % WIDE == (a + k * WIDE + b + c + d) % WIDE
  {
    var m, n := (a + b) / WIDE, ((a + b) % WIDE + c) / WIDE;
    AddMultiple(((a + b) % WIDE + c) % WIDE + d, m + n + k, WIDE);
  }

  /** Splitting ten limb products into halves and adding the halves rank by rank loses a multiple of 2^128. */
  lemma Recombine(l00: int, h00: int, l01: int, h01: int, l02: int, h02: int, l03: int, h03: int, l11: int, h11: int,
                  l12: int, h12: int, l13: int, h13: int, l22: int, h22: int, l23: int, h23: int, l33: int, h33: int)
    ensures RankSum((h00 * HALF + l00) + (h11 * HALF + l11) + (h22 * HALF + l22) + (h33 * HALF + l33),
                    (h01 * HALF + l01) + (h12 * HALF + l12) + (h23 * HALF + l23),
                    (h02 * HALF + l02) + (h13 * HALF + l13), h03 * HALF + l03)
            == RankSum(l00 + h01 + (l11 + h12) + (l22 + h23) + l33, l01 + h02 + (l12 + h13) + l23, l02 + h03 + l13, l03)
               + (h00 + h11 + h22 + h33) * WIDE
  {
  }

  /** The limb sums: no accumulator overflows its 64 bits. */
  method SumRows(p: array2<Word>) returns (r: U128)
    requires p.Length0 == 4 && p.Length1 == 4
    requires forall x, y :: 0 <= x < 4 && 0 <= y < 4 ==> IsHalfProduct(p[x, y])
    ensures Value(r) == RankSum(p[0, 0] + p[1, 1] + p[2, 2] + p[3, 3], p[0, 1] + p[1, 2] + p[2, 3],
                                p[0, 2] + p[1, 3], p[0, 3]) % WIDE
  {
    hide Words.Add, Value, Plus, Shl, Shr, Low, High, IsHalfProduct, RankSum;
    var p00, p01, p02, p03 := p[0, 0], p[0, 1], p[0, 2], p[0, 3];
    var p11, p12, p13, p22, p23, p33 := p[1, 1], p[1, 2], p[1, 3], p[2, 2], p[2, 3], p[3, 3];
    HalfParts(p00); HalfParts(p01); HalfParts(p02); HalfParts(p03); HalfParts(p11);
    HalfParts(p12); HalfParts(p13); HalfParts(p22); HalfParts(p23); HalfParts(p33);
    // initial row
    var fourth32 := Low(p03);
    var third32 := SumWords(Low(p02), High(p03));
    var second32 := SumWords(Low(p01), High(p02));
    var first32 := SumWords(Low(p00), High(p01));
    // second row
    third32 := SumWords(third32, Low(p13));
    var t := SumWords(Low(p12), High(p13));
    second32 := SumWords(second32, t);
    t := SumWords(Low(p11), High(p12));
    first32 := SumWords(first32, t);
    // third row
    second32 := SumWords(second32, Low(p23));
    t := SumWords(Low(p22), High(p23));
    first32 := SumWords(first32, t);
    // fourth row
    first32 := SumWords(first32, Low(p33));
    r := Plus(Plus(Plus(U128(Shl(first32, 32), 0), U128(Shr(third32, 32), Shl(third32, 32))), U128(second32, 0)),
              U128(0, fourth32));
    Assemble(first32, second32, third32, fourth32);
    Recombine(Low(p00), High(p00), Low(p01), High(p01), Low(p02), High(p02), Low(p03), High(p03), Low(p11), High(p11),
              Low(p12), High(p12), Low(p13), High(p13), Low(p22), High(p22), Low(p23), High(p23), Low(p33), High(p33));
    AddMultiple(RankSum(first32, second32, third32, fourth32), High(p00) + High(p11) + High(p22) + High(p33), WIDE);
  }

  /** A 64-bit addition that does not wrap. */
  method SumWords(x: Word, y: Word) returns (s: Word)
    requires x + y < WORD
    ensures s == x + y
  {
    s := Words.Add(x, y);
  }

  /** Four limb sums at their ranks. */
  function RankSum(first: int, second: int, third: int, fourth: int): int {
    first * HALF * WORD + second * WORD + third * HALF + fourth
  }

  function Limbs(a: U128): seq<Word> {
    [High(a.upper), Low(a.upper), High(a.lower), Low(a.lower)]
  }

  lemma LimbValue(a: U128)
    ensures var t := Limbs(a);
            Value(a) == ((t[0] * HALF + t[1]) * HALF + t[2]) * HALF + t[3]
            && t[0] < HALF && t[1] < HALF && t[2] < HALF && t[3] < HALF
  {
  }

  /** All sixteen limb products; row 3 - x belongs to limb x of the left operand. */
  method LimbProducts(top: array<Word>, bottom: array<Word>) returns (products: array2<Word>)
    requires top.Length == 4 && bottom.Length == 4
    requires forall x :: 0 <= x < 4 ==> top[x] < HALF && bottom[x] < HALF
    ensures products.Length0 == 4 && products.Length1 == 4
    ensures forall x, y :: 0 <= x < 4 && 0 <= y < 4 ==> products[x, y] == Product(top[3 - x], bottom[y])
    ensures forall x, y :: 0 <= x < 4 && 0 <= y < 4 ==> IsHalfProduct(products[x, y])
  {
    hide Words.Mul, IsHalfProduct, Product;
    products := new Word[4, 4];
    var y := 3;
    while y > -1
      invariant -1 <= y <= 3
      invariant forall x, z :: 0 <= x < 4 && y < z < 4 ==> products[x, z] == Product(top[3 - x], bottom[z])
      invariant forall x, z :: 0 <= x < 4 && y < z < 4 ==> IsHalfProduct(products[x, z])
    {
      var x := 3;
      while x > -1
        invariant -1 <= x <= 3
        invariant forall w, z :: 0 <= w < 4 && y < z < 4 ==> products[w, z] == Product(top[3 - w], bottom[z])
        invariant forall w, z :: 0 <= w < 4 && y < z < 4 ==> IsHalfProduct(products[w, z])
        invariant forall w :: 0 <= w < 3 - x ==> products[w, y] == Product(top[3 - w], bottom[y])
        invariant forall w :: 0 <= w < 3 - x ==> IsHalfProduct(products[w, y])
      {
        HalfProduct(top[x], bottom[y]);
        products[3 - x, y] := Words.Mul(top[x], bottom[y]);
        x := x - 1;
      }
      y := y - 1;
    }
  }

  /** `*` is multiplication modulo 2^128. */
  method Multiply(a: U128, b: U128) returns (r: U128)
    ensures Value(r) == Value(a) * Value(b) % WIDE
  {
    hide Value, RankSum, IsHalfProduct, Product, Low, High;
    ghost var t, s := Limbs(a), Limbs(b);
    LimbValue(a);
    LimbValue(b);
    var top := new Word[4] [High(a.upper), Low(a.upper), High(a.lower), Low(a.lower)];
    var bottom := new Word[4] [High(b.upper), Low(b.upper), High(b.lower), Low(b.lower)];
    assert top[..] == t && bottom[..] == s;
    var p := LimbProducts(top, bottom);
    r := SumRows(p);
    ghost var c := LimbProduct(t[0], t[1], t[2], t[3], s[0], s[1], s[2], s[3]);
    assert p[0, 0] == Product(t[3], s[0]) && p[1, 1] == Product(t[2], s[1]);
    assert p[2, 2] == Product(t[1], s[2]) && p[3, 3] == Product(t[0], s[3]);
    assert p[0, 1] == Product(t[3], s[1]) && p[1, 2] == Product(t[2], s[2]) && p[2, 3] == Product(t[1], s[3]);
    assert p[0, 2] == Product(t[3], s[2]) && p[1, 3] == Product(t[2], s[3]) && p[0, 3] == Product(t[3], s[3]);
    AddMultiple(RankSum(Product(t[3], s[0]) + Product(t[2], s[1]) + Product(t[1], s[2]) + Product(t[0], s[3]),
                        Product(t[3], s[1]) + Product(t[2], s[2]) + Product(t[1], s[3]),
                        Product(t[3], s[2]) + Product(t[2], s[3]), Product(t[3], s[3])), c, WIDE);
  }

  // ---------------------------------------------------------------- bit length

  function BitLength(v: nat): nat {
    if v == 0 then 0 else 1 + BitLength(v / 2)
  }

  lemma {:induction false} BitLengthBounds(v: nat)
    ensures v < Pow2(BitLength(v))
    ensures v > 0 ==> BitLength(v) > 0 && Pow2(BitLength(v) - 1) <= v
  {
    if v > 0 { BitLengthBounds(v / 2); }
  }

  lemma {:induction false} BitLengthDrop(v: nat, k: nat)
    requires v >= Pow2(k)
    ensures Drop(v, k) > 0 && BitLength(v) == k + BitLength(Drop(v, k))
    decreases k
  {
    if k > 0 {
      BitLengthDrop(v / 2, k - 1);
      DropHalf(v, k);
    } else {
      assert Pow2(0) == 1;
    }
  }

  lemma {:induction false} BitLengthMonotone(v: nat, w: nat)
    requires v <= w
    ensures BitLength(v) <= BitLength(w)
    decreases w
  {
    if v > 0 { BitLengthMonotone(v / 2, w / 2); }
  }

  method CountBits(word: Word, start: nat) returns (out: nat)
    ensures out == start + BitLength(word)
  {
    out := start;
    var w := word;
    while w != 0
      invariant out + BitLength(w) == start + BitLength(word)
      decreases w
    {
      assert Pow2(1) == 2;
      w := Shr(w, 1);
      out := out + 1;
    }
  }

  method Bits(a: U128) returns (out: nat)
    ensures out == BitLength(Value(a)) <= 128
  {
    Pow2Of64();
    if a.upper != 0 {
      BitLengthDrop(Value(a), 64);
      DivModUnique(Value(a), WORD, a.upper, a.lower);
      out := CountBits(a.upper, 64);
    } else {
      out := CountBits(a.lower, 0);
    }
    BitLengthAtMost(Value(a), 128);
  }

  lemma BitLengthAtMost(v: nat, n: nat)
    requires v < Pow2(n) || (n == 128 && v < WIDE)
    ensures BitLength(v) <= n
  {
    if n == 128 { Pow2Add(64, 64); Pow2Of64(); }
    BitLengthBounds(v);
    var m := if v > 0 then BitLength(v) - 1 else 0;
    if n <= m { Pow2Monotone(n, m); }
  }

  // ---------------------------------------------------------------- division

  datatype DivisionError = DivisionByZero

  lemma LowWordMultiple(u: int, l: int, d: int, p: int, e: int)
    requires u * WORD + l == d * p && p * e == WORD
    ensures l == (d - u * e) * p
  {
    Regroup(u, e, p);
    assert e * p == p * e;
    Subtract(d, u * e, p);
  }

  lemma OrInLowerWord(q: U128, adder: U128, k: nat)
    requires k < 64 && Value(adder) == Pow2(k) && Value(q) % Pow2(k + 1) == 0
    ensures Value(BitOr(q, adder)) == Value(q) + Value(adder)
  {
    hide Or, Pow2;
    Pow2Of64();
    Pow2Monotone(k, k + 1);
    Pow2Monotone(k, 64);
    Pow2Add(k + 1, 63 - k);
    assert adder == U128(0, Pow2(k));
    var d, e := Value(q) / Pow2(k + 1), Pow2(63 - k);
    LowWordMultiple(q.upper, q.lower, d, Pow2(k + 1), e);
    AddMultiple(0, d - q.upper * e, Pow2(k + 1));
    DisjointBits(q.lower, adder.lower, k + 1);
    OrZero(q.upper);
  }

  lemma OrInUpperWord(q: U128, adder: U128, k: nat)
    requires 64 <= k < 128 && Value(adder) == Pow2(k) && Value(q) % Pow2(k + 1) == 0
    ensures Value(BitOr(q, adder)) == Value(q) + Value(adder)
  {
    hide Or, Pow2;
    Pow2Of64();
    var d, e := Value(q) / Pow2(k + 1), Pow2(k + 1 - 64);
    Pow2Add(64, k - 64);
    Pow2Add(64, k + 1 - 64);
    assert Value(q) == d * e * WORD by { Regroup(d, e, WORD); assert WORD * e == e * WORD; }
    DivModUnique(Value(q), WORD, q.upper, q.lower);
    DivModUnique(Value(q), WORD, d * e, 0);
    DivModUnique(Value(adder), WORD, Pow2(k - 64), 0);
    DivModUnique(Value(adder), WORD, adder.upper, adder.lower);
    AddMultiple(0, d, e);
    Pow2Monotone(k - 64, k + 1 - 64);
    DisjointBits(q.upper, adder.upper, k + 1 - 64);
    OrZero(0);
  }

  /** `|=` with a power of two below every set bit is addition. */
  lemma OrIsAddition(q: U128, adder: U128, k: nat)
    requires k < 128 && Value(adder) == Pow2(k) && Value(q) % Pow2(k + 1) == 0
    ensures Value(BitOr(q, adder)) == Value(q) + Value(adder)
  {
    if k < 64 { OrInLowerWord(q, adder, k); } else { OrInUpperWord(q, adder, k); }
  }

  /** Shifting the divisor up to the length of the dividend loses no bit and ends within a factor of two. */
  lemma Aligned(lhs: U128, rhs: U128)
    requires 0 < Value(rhs) <= Value(lhs)
    ensures BitLength(Value(rhs)) <= BitLength(Value(lhs)) <= 128
    ensures var s := BitLength(Value(lhs)) - BitLength(Value(rhs));
            && s < 128
            && Value(ShiftLeft(rhs, U128(0, s))) == Value(rhs) * Pow2(s)
            && Value(ShiftLeft(ONE, U128(0, s))) == Pow2(s)
            && Value(lhs) < 2 * (Value(rhs) * Pow2(s))
            && (s == 0 ==> Value(rhs) * Pow2(s) <= Value(lhs))
  {
    hide ShiftLeft, Pow2, BitLength;
    var l, r := Value(lhs), Value(rhs);
    BitLengthMonotone(r, l);
    BitLengthAtMost(l, 128);
    BitLengthBounds(r);
    assert Value(ONE) == 1 && forall s: Word :: Value(U128(0, s)) == s;
    hide Value;
    var s := BitLength(l) - BitLength(r);
    AlignedValues(l, r, BitLength(l), BitLength(r));
    ShiftLeftMultiplies(rhs, U128(0, s));
    ShiftLeftMultiplies(ONE, U128(0, s));
    WideMod(0, r * Pow2(s));
    WideMod(0, Pow2(s));
  }

  lemma AlignedValues(l: nat, r: nat, n: nat, m: nat)
    requires 0 < r <= l < WIDE && n == BitLength(l) && m == BitLength(r) && 0 < m <= n <= 128
    ensures n - m < 128 && 0 < Pow2(n - m) < WIDE
    ensures 0 < r * Pow2(n - m) < WIDE && l < 2 * (r * Pow2(n - m))
    ensures n == m ==> r * Pow2(0) <= l
  {
    BitLengthBounds(l);
    BitLengthBounds(r);
    var s := n - m;
    var p := Pow2(s);
    Pow2Add(m, s);
    Pow2Add(m - 1, s);
    Pow2Add(64, 64);
    Pow2Of64();
    Pow2Monotone(n, 128);
    Pow2Monotone(s, 127);
    assert Pow2(128) == WIDE && 2 * Pow2(127) == Pow2(128);
    ScaleUp(r, Pow2(m - 1), Pow2(m), p);
    hide Pow2;
    assert 2 * (Pow2(m - 1) * p) == 2 * Pow2(m - 1) * p;
    Multiple(r, p);
  }

  lemma ScaleUp(r: int, lo: int, hi: int, p: int)
    requires lo <= r < hi && p >= 1
    ensures lo * p <= r * p < hi * p
  {
    Subtract(r, lo, p);
    Subtract(hi, r, p);
    Multiple(hi - r, p);
    assert (r - lo) * p >= 0;
  }

  /** A loop step of the division: the remainder is below twice the shifted divisor, which is rhs * 2^k. */
  ghost predicate Dividing(l: int, r: int, q: U128, rem: U128, copyd: U128, adder: U128, k: int) {
    && l == Value(q) * r + Value(rem)
    && -1 <= k < 128
    && (k == -1 ==> Value(rem) < r)
    && (k >= 0 ==> Value(copyd) == r * Pow2(k) && Value(adder) == Pow2(k) && Value(q) % Pow2(k + 1) == 0
                   && Value(rem) < 2 * (r * Pow2(k)))
  }

  lemma Subtracted(l: int, r: int, q: U128, rem: U128, copyd: U128, adder: U128, k: nat)
    requires r > 0 && Dividing(l, r, q, rem, copyd, adder, k) && Value(rem) >= Value(copyd)
    ensures Value(BitOr(q, adder)) == Value(q) + Pow2(k) && Value(Minus(rem, copyd)) == Value(rem) - Value(copyd)
    ensures l == Value(BitOr(q, adder)) * r + Value(Minus(rem, copyd))
    ensures Value(BitOr(q, adder)) % Pow2(k) == 0 && Value(Minus(rem, copyd)) < r * Pow2(k)
  {
    hide BitOr, Minus;
    OrIsAddition(q, adder, k);
    MinusIsSubtraction(rem, copyd);
    WideMod(0, Value(rem) - Value(copyd));
    Distribute(Value(q), Pow2(k), r);
    EvenMultiple(Value(q), k);
    AddMultiple(Value(q), 1, Pow2(k));
  }

  lemma EvenMultiple(q: int, k: nat)
    requires q % Pow2(k + 1) == 0
    ensures q % Pow2(k) == 0
  {
    var d := q / Pow2(k + 1);
    assert q == d * (2 * Pow2(k));
    assert q == 2 * d * Pow2(k);
    AddMultiple(0, 2 * d, Pow2(k));
  }

  lemma ExactHalf(c: U128, r: int, k: nat)
    requires k > 0 && Value(c) == r * Pow2(k)
    ensures Value(ShiftRight(c, ONE)) == r * Pow2(k - 1)
  {
    hide ShiftRight;
    ShiftRightDivides(c, ONE);
    assert Pow2(1) == 2;
    assert r * Pow2(k) == 2 * (r * Pow2(k - 1));
  }

  /** Halving the shifted divisor and the adder keeps them exact as long as there is a bit left. */
  lemma Halved(l: int, r: int, q: U128, rem: U128, copyd: U128, adder: U128, k: nat)
    requires r > 0 && k < 128 && l == Value(q) * r + Value(rem)
    requires Value(copyd) == r * Pow2(k) && Value(adder) == Pow2(k)
    requires Value(q) % Pow2(k) == 0 && Value(rem) < r * Pow2(k)
    ensures Dividing(l, r, q, rem, ShiftRight(copyd, ONE), ShiftRight(adder, ONE), k - 1)
  {
    hide ShiftRight, Value;
    if k > 0 {
      ExactHalf(copyd, r, k);
      ExactHalf(adder, 1, k);
      assert r * Pow2(k) == 2 * (r * Pow2(k - 1));
    } else {
      assert Pow2(0) == 1;
    }
  }

  /** What a division returns: the equation and the bound that determine quotient and remainder. */
  predicate Divides(lhs: U128, rhs: U128, q: U128, rem: U128) {
    Value(lhs) == Value(q) * Value(rhs) + Value(rem) && Value(rem) < Value(rhs)
  }

  lemma Shortcuts(lhs: U128, rhs: U128)
    requires rhs != ZERO
    ensures rhs == ONE ==> Divides(lhs, rhs, lhs, ZERO)
    ensures lhs == rhs ==> Divides(lhs, rhs, ONE, ZERO)
    ensures lhs == ZERO || Less(lhs, rhs) ==> Divides(lhs, rhs, ZERO, lhs)
    ensures !(lhs == ZERO || Less(lhs, rhs)) ==> 0 < Value(rhs) <= Value(lhs)
    ensures Value(rhs) > 0
  {
    ComparesAsValue(lhs, rhs);
    ComparesAsValue(rhs, ZERO);
  }

  lemma Finished(lhs: U128, rhs: U128, q: U128, rem: U128, copyd: U128, adder: U128, k: int)
    requires Dividing(Value(lhs), Value(rhs), q, rem, copyd, adder, k)
    ensures k == -1 ==> !AtLeast(rem, rhs)
    ensures !AtLeast(rem, rhs) ==> Divides(lhs, rhs, q, rem)
  {
    ComparesAsValue(rem, rhs);
  }

  method DivMod(lhs: U128, rhs: U128) returns (qr: Result<(U128, U128), DivisionError>)
    ensures qr.Failure? <==> rhs == ZERO
    ensures qr.Success? ==> Divides(lhs, rhs, qr.value.0, qr.value.1)
  {
    hide ShiftLeft, ShiftRight, BitOr, Minus, Dividing, Divides, Value, Less, Greater, AtLeast, Pow2;
    if rhs == ZERO {
      return Failure(DivisionByZero);
    }
    Shortcuts(lhs, rhs);
    if rhs == ONE {
      return Success((lhs, ZERO));
    } else if lhs == rhs {
      return Success((ONE, ZERO));
    } else if lhs == ZERO || Less(lhs, rhs) {
      return Success((ZERO, lhs));
    }
    ghost var l, r := Value(lhs), Value(rhs);
    var q, rem := ZERO, lhs;
    Aligned(lhs, rhs);
    var bitsL := Bits(lhs);
    var bitsR := Bits(rhs);
    ghost var k: int := bitsL - bitsR;
    var copyd := ShiftLeft(rhs, U128(0, bitsL - bitsR));
    var adder := ShiftLeft(ONE, U128(0, bitsL - bitsR));
    ComparesAsValue(copyd, rem);
    StartDividing(l, r, rem, copyd, adder, k);
    if Greater(copyd, rem) {
      copyd := ShiftRight(copyd, ONE);
      adder := ShiftRight(adder, ONE);
      k := k - 1;
    }
    Finished(lhs, rhs, q, rem, copyd, adder, k);
    while AtLeast(rem, rhs)
      invariant Dividing(l, r, q, rem, copyd, adder, k)
      invariant k == -1 ==> !AtLeast(rem, rhs)
      invariant !AtLeast(rem, rhs) ==> Divides(lhs, rhs, q, rem)
      invariant k >= -1
      decreases k + 1
    {
      ComparesAsValue(rem, rhs);
      ComparesAsValue(rem, copyd);
      StepDividing(l, r, q, rem, copyd, adder, k);
      if AtLeast(rem, copyd) {
        rem := Minus(rem, copyd);
        q := BitOr(q, adder);
      }
      copyd := ShiftRight(copyd, ONE);
      adder := ShiftRight(adder, ONE);
      k := k - 1;
      Finished(lhs, rhs, q, rem, copyd, adder, k);
    }
    qr := Success((q, rem));
  }

  lemma StartDividing(l: int, r: int, rem: U128, copyd: U128, adder: U128, k: nat)
    requires k < 128 && r > 0 && Value(rem) == l && Value(copyd) == r * Pow2(k) && Value(adder) == Pow2(k)
    requires l < 2 * (r * Pow2(k))
    ensures Dividing(l, r, ZERO, rem, copyd, adder, k)
    ensures l < Value(copyd) ==> Dividing(l, r, ZERO, rem, ShiftRight(copyd, ONE), ShiftRight(adder, ONE), k - 1)
  {
    AddMultiple(0, 0, Pow2(k + 1));
    AddMultiple(0, 0, Pow2(k));
    if l < Value(copyd) { Halved(l, r, ZERO, rem, copyd, adder, k); }
  }

  lemma StepDividing(l: int, r: int, q: U128, rem: U128, copyd: U128, adder: U128, k: int)
    requires r > 0 && Dividing(l, r, q, rem, copyd, adder, k) && Value(rem) >= r
    ensures k >= 0
    ensures var (q', rem') := if Value(rem) >= Value(copyd) then (BitOr(q, adder), Minus(rem, copyd)) else (q, rem);
            Dividing(l, r, q', rem', ShiftRight(copyd, ONE), ShiftRight(adder, ONE), k - 1)
  {
    hide BitOr, Minus, ShiftRight;
    if Value(rem) >= Value(copyd) {
      Subtracted(l, r, q, rem, copyd, adder, k);
      Halved(l, r, BitOr(q, adder), Minus(rem, copyd), copyd, adder, k);
    } else {
      EvenMultiple(Value(q), k);
      Halved(l, r, q, rem, copyd, adder, k);
    }
  }

  /** `/` and `%` as the source builds them: `%` multiplies back and subtracts. */
  method Divide(a: U128, b: U128) returns (r: Result<U128, DivisionError>)
    ensures r.Failure? <==> b == ZERO
    ensures r.Success? ==> Value(b) > 0 && Value(r.value) == Value(a) / Value(b)
  {
    hide Divides;
    var qr := DivMod(a, b);
    if qr.Failure? { return Failure(qr.error); }
    QuotientAndRemainder(a, b, qr.value.0, qr.value.1);
    r := Success(qr.value.0);
  }

  lemma QuotientAndRemainder(a: U128, b: U128, q: U128, rem: U128)
    requires Divides(a, b, q, rem)
    ensures Value(b) > 0 && Value(q) == Value(a) / Value(b) && Value(rem) == Value(a) % Value(b)
  {
    DivModUnique(Value(a), Value(b), Value(q), Value(rem));
  }

  method Modulo(a: U128, b: U128) returns (r: Result<U128, DivisionError>)
    ensures r.Failure? <==> b == ZERO
    ensures r.Success? ==> Value(b) > 0 && Value(r.value) == Value(a) % Value(b)
  {
    hide Minus, Value;
    var q := Divide(a, b);
    if q.Failure? { return Failure(q.error); }
    var back := Multiply(b, q.value);
    var rem := Minus(a, back);
    MinusIsSubtraction(a, back);
    Leftover(Value(a), Value(b), Value(back));
    r := Success(rem);
  }

  lemma Leftover(a: int, b: int, back: int)
    requires 0 <= a < WIDE && b > 0 && back == b * (a / b) % WIDE
    ensures (a - back) % WIDE == a % b
  {
    DivBound(a, b);
    assert a == a / b * b + a % b;
    assert a / b * b == b * (a / b);
    assert (a / b) * b >= 0;
    WideMod(0, b * (a / b));
    WideMod(0, a % b);
  }

  // ---------------------------------------------------------------- printing

  datatype PrintError = BadBase

  const ALPHABET := "0123456789abcdef"

  function Digits(v: nat, base: nat): string
    requires 2 <= base <= 16
  {
    if v < base then [ALPHABET[v]] else Digits(v / base, base) + [ALPHABET[v % base]]
  }

  function Zeros(n: nat): string { seq(n, _ => '0') }

  function Padded(s: string, len: nat): string {
    if |s| < len then Zeros(len - |s|) + s else s
  }

  method Str(a: U128, base: nat, len: nat) returns (r: Result<string, PrintError>)
    ensures r.Failure? <==> base < 2 || base > 16
    ensures r.Success? ==> r.value == Padded(Digits(Value(a), base), len)
  {
    hide Value, Divides;
    if base < 2 || base > 16 { return Failure(BadBase); }
    ComparesAsValue(a, ZERO);
    Small(base);
    var out := "";
    if a == ZERO {
      out := "0";
    } else {
      var cur := a;
      var more := true;
      while more
        invariant more ==> Value(cur) > 0 && Digits(Value(a), base) == Digits(Value(cur), base) + out
        invariant !more ==> Digits(Value(a), base) == out
        decreases more, Value(cur)
      {
        var qr := DivMod(cur, U128(0, base));
        assert qr.Success?;
        var (q, digit) := qr.value;
        QuotientAndRemainder(cur, U128(0, base), q, digit);
        ComparesAsValue(q, ZERO);
        SmallRemainder(digit, base);
        LastDigit(Value(cur), base);
        out := [ALPHABET[digit.lower]] + out;
        cur := q;
        more := q != ZERO;
      }
    }
    r := Success(if |out| < len then Zeros(len - |out|) + out else out);
  }

  lemma Small(base: nat)
    requires 2 <= base <= 16
    ensures Value(U128(0, base)) == base && U128(0, base) != ZERO && Value(ZERO) == 0
    ensures Digits(0, base) == "0"
  {
  }

  lemma SmallRemainder(d: U128, base: nat)
    requires Value(d) < base <= 16
    ensures d.lower == Value(d)
  {
  }

  lemma QuotientShrinks(v: int, base: int, q: int, r: int)
    requires 2 <= base && v > 0 && v == q * base + r && 0 <= r < base
    ensures 0 <= q < v && (q == 0 <==> v < base)
  {
    Multiple(q, base);
    Multiple(q, base - 1);
    assert q * base == q * (base - 1) + q;
  }

  lemma Shrinks(v: nat, base: nat)
    requires 2 <= base && v > 0
    ensures 0 <= v / base < v && 0 <= v % base < base
    ensures v / base == 0 <==> v < base
    ensures v < base ==> v % base == v
    ensures v == v / base * base + v % base
  {
    QuotientShrinks(v, base, v / base, v % base);
  }

  lemma LastDigit(v: nat, base: nat)
    requires 2 <= base <= 16 && v > 0
    ensures 0 <= v / base < v && 0 <= v % base < base
    ensures v / base > 0 ==> Digits(v, base) == Digits(v / base, base) + [ALPHABET[v % base]]
    ensures v / base == 0 ==> Digits(v, base) == [ALPHABET[v % base]]
  {
    Shrinks(v, base);
  }

  /** An independent reader of printed numbers. */
  function DigitValue(c: char): nat {
    if '0' <= c <= '9' then (c - '0') as nat else if 'a' <= c <= 'f' then (c - 'a') as nat + 10 else 16
  }

  function Read(s: string, base: nat): Option<nat> {
    if s == "" then Some(0) else
    var high, d := Read(s[..|s| - 1], base), DigitValue(s[|s| - 1]);
    if high.None? || d >= base then None else Some(high.value * base + d)
  }

  lemma DigitOfAlphabet(d: nat)
    requires d < 16
    ensures DigitValue(ALPHABET[d]) == d && (ALPHABET[d] == '0' <==> d == 0)
  {
  }

  /** The digits in their order, and a number that most bases print differently. */
  lemma DigitsInOrder(d: nat, e: nat)
    requires d < e < 16
    ensures ALPHABET[d] < ALPHABET[e] && ALPHABET[0] == '0' && ALPHABET[9] == '9' && ALPHABET[10] == 'a' && ALPHABET[15] == 'f'
    ensures Digits(0xbe, 16) == "be" && Digits(0xbe, 10) == "190" && Digits(5, 2) == "101"
  {
    assert Digits(0xbe, 16) == Digits(0xb, 16) + [ALPHABET[0xe]];
    assert Digits(0xbe, 10) == Digits(19, 10) + ['0'] == (Digits(1, 10) + ['9']) + ['0'];
    assert Digits(5, 2) == Digits(2, 2) + ['1'] == (Digits(1, 2) + ['0']) + ['1'];
  }

  lemma ReadOneMore(s: string, c: char, base: nat)
    ensures Read(s + [c], base) == if Read(s, base).None? || DigitValue(c) >= base then None
                                   else Some(Read(s, base).value * base + DigitValue(c))
  {
    assert (s + [c])[..|s|] == s;
  }

  lemma {:induction false} ReadDigits(v: nat, base: nat)
    requires 2 <= base <= 16
    ensures Read(Digits(v, base), base) == Some(v)
    decreases v
  {
    hide DigitValue, Read;
    assert Read("", base) == Some(0) by { ReadEmpty(base); }
    if v < base {
      DigitOfAlphabet(v);
      ReadOneMore("", ALPHABET[v], base);
      assert "" + [ALPHABET[v]] == [ALPHABET[v]];
    } else {
      Shrinks(v, base);
      DigitOfAlphabet(v % base);
      ReadDigits(v / base, base);
      ReadOneMore(Digits(v / base, base), ALPHABET[v % base], base);
    }
  }

  lemma ReadEmpty(base: nat)
    ensures Read("", base) == Some(0)
  {
  }

  lemma {:induction false} ReadZeros(n: nat, base: nat)
    requires 2 <= base
    ensures Read(Zeros(n), base) == Some(0)
  {
    if n > 0 {
      ReadZeros(n - 1, base);
      assert Zeros(n)[..n - 1] == Zeros(n - 1);
    }
  }

  lemma {:induction false} ReadAfterZeros(n: nat, s: string, base: nat)
    requires 2 <= base
    ensures Read(Zeros(n) + s, base) == Read(s, base)
    decreases |s|
  {
    if s == "" {
      ReadZeros(n, base);
      assert Zeros(n) + s == Zeros(n);
    } else {
      ReadAfterZeros(n, s[..|s| - 1], base);
      assert (Zeros(n) + s)[..n + |s| - 1] == Zeros(n) + s[..|s| - 1];
    }
  }

  /** Reading the printed number gives it back, whatever the padding; so printing is injective. */
  lemma PrintedReadsBack(v: nat, base: nat, len: nat)
    requires 2 <= base <= 16
    ensures Read(Padded(Digits(v, base), len), base) == Some(v)
  {
    ReadDigits(v, base);
    var s := Digits(v, base);
    if |s| < len { ReadAfterZeros(len - |s|, s, base); }
  }

  lemma PrintingIsInjective(v: nat, w: nat, base: nat, len: nat)
    requires 2 <= base <= 16
    ensures Padded(Digits(v, base), len) == Padded(Digits(w, base), len) <==> v == w
  {
    PrintedReadsBack(v, base, len);
    PrintedReadsBack(w, base, len);
  }

  /** The only number printed with a leading zero, padding aside, is zero. */
  lemma {:induction false} NoLeadingZero(v: nat, base: nat)
    requires 2 <= base <= 16
    ensures Digits(v, base)[0] == '0' <==> v == 0
    decreases v
  {
    if v >= base {
      Shrinks(v, base);
      NoLeadingZero(v / base, base);
    } else {
      DigitOfAlphabet(v);
    }
  }
}
