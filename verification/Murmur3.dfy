/** MurmurHash3_x64_128 (fuzzer/murmur3.cpp): the hash as it is computed, the function it computes, and
    the proof that it never maps two buffers of equal length together when they differ inside one
    16-byte block or only in the tail. */
module Murmur3 {
  import opened Words

  const C1: Word := 0x87c37b91114253d5
  const C2: Word := 0x4cf5ad432745937f
  const F1: Word := 0xff51afd7ed558ccd
  const F2: Word := 0xc4ceb9fe1a85ec53

  function Rotl(x: Word, r: nat): Word
    requires 0 < r < 64
  {
    Or64(Shl(x, r), Shr(x, 64 - r))
  }

  function Fmix(k: Word): Word {
    var k := Xor64(k, Shr(k, 33));
    var k := Mul(k, F1);
    var k := Xor64(k, Shr(k, 33));
    var k := Mul(k, F2);
    Xor64(k, Shr(k, 33))
  }

  /** A little-endian read of at most eight bytes. */
  function Le(s: seq<Byte>): (r: nat)
    ensures r < Pow2(8 * |s|)
    decreases |s|
  {
    if s == [] then 0 else
    assert Pow2(8 * |s|) == 256 * Pow2(8 * |s| - 8) by { Pow2Add(8, 8 * |s| - 8); assert Pow2(8) == 256; }
    s[0] + 256 * Le(s[1..])
  }

  function Le64(s: seq<Byte>): (r: Word)
    requires |s| <= 8
  {
    Pow2Of64();
    Pow2Monotone(8 * |s|, 64);
    Le(s)
  }

  datatype Lanes = Lanes(h1: Word, h2: Word)

  function MixK1(k: Word): Word { Mul(Rotl(Mul(k, C1), 31), C2) }

  function MixK2(k: Word): Word { Mul(Rotl(Mul(k, C2), 33), C1) }

  function Round(h: Lanes, k1: Word, k2: Word): Lanes {
    var h1 := Add(Mul(Add(Rotl(Xor64(h.h1, MixK1(k1)), 27), h.h2), 5), 0x52dce729);
    var h2 := Add(Mul(Add(Rotl(Xor64(h.h2, MixK2(k2)), 31), h1), 5), 0x38495ab5);
    Lanes(h1, h2)
  }

  /** The lanes after the first n blocks. */
  function Blocks(data: seq<Byte>, seed: Word, n: nat): Lanes
    requires 16 * n <= |data|
  {
    if n == 0 then Lanes(seed, seed)
    else Round(Blocks(data, seed, n - 1), Le64(data[16 * n - 16..16 * n - 8]), Le64(data[16 * n - 8..16 * n]))
  }

  function Tail(h: Lanes, t: seq<Byte>): Lanes
    requires |t| < 16
  {
    Lanes(if |t| > 0 then Xor64(h.h1, MixK1(Le64(t[..if |t| < 8 then |t| else 8]))) else h.h1,
          if |t| > 8 then Xor64(h.h2, MixK2(Le64(t[8..]))) else h.h2)
  }

  function Finish(h: Lanes, len: Word): Lanes {
    var h1 := Add(Xor64(h.h1, len), Xor64(h.h2, len));
    var h2 := Add(Xor64(h.h2, len), h1);
    var g1 := Add(Fmix(h1), Fmix(h2));
    Lanes(g1, Add(Fmix(h2), g1))
  }

  /** The length is an int in the source: below 2^31 it widens to a word unchanged. */
  function Hash(data: seq<Byte>, seed: Word): Lanes
    requires |data| < 0x8000_0000
  {
    var n := |data| / 16;
    Finish(Tail(Blocks(data, seed, n), data[16 * n..]), |data|)
  }

  // ---------------------------------------------------------------- the code

  /** The lane word after the tail bytes from j on: the lane starts at byte lo and has at most eight bytes. */
  function LaneFrom(t: seq<Byte>, lo: nat, j: nat): Word
    requires lo <= j && |t| < 16
  {
    var hi := if |t| < lo + 8 then |t| else lo + 8;
    if j >= hi then 0 else
    FitsWord(Le(t[j..hi]), 8 * (hi - j), 8 * (j - lo));
    Le(t[j..hi]) * Pow2(8 * (j - lo))
  }

  /** One more tail byte: xor with a shifted byte below the ones already there. */
  lemma TailByte(t: seq<Byte>, lo: nat, j: nat)
    requires lo <= j < |t| < 16 && j < lo + 8
    ensures Xor64(LaneFrom(t, lo, j + 1), Shl(t[j], 8 * (j - lo))) == LaneFrom(t, lo, j)
  {
    var hi := if |t| < lo + 8 then |t| else lo + 8;
    var p := Pow2(8 * (j - lo));
    var high := Le(t[j + 1..hi]);
    Pow2Add(8, 8 * (j - lo));
    assert Pow2(8) == 256;
    assert t[j..hi][1..] == t[j + 1..hi];
    FitsWord(t[j], 8, 8 * (j - lo));
    assert LaneFrom(t, lo, j + 1) == high * (256 * p);
    ByteBelow(high, t[j], p);
    AddMultiple(0, high, 256 * p);
    DisjointBits(high * (256 * p), t[j] * p, 8 * (j + 1 - lo));
  }

  lemma ByteBelow(high: nat, b: Byte, p: int)
    requires p >= 1
    ensures high * (256 * p) + b * p == (b + 256 * high) * p
    ensures 0 <= b * p < 256 * p
  {
    Distribute(b, 256 * high, p);
    Multiple(256 - b, p);
    Distribute(256 - b, b, p);
  }

  lemma FitsWord(x: nat, n: nat, k: nat)
    requires x < Pow2(n) && n + k <= 64
    ensures 0 <= x * Pow2(k) < WORD && x * Pow2(k) % WORD == x * Pow2(k)
  {
    var p := Pow2(k);
    Multiple(x, p);
    Multiple(Pow2(n) - x, p);
    Distribute(Pow2(n) - x, x, p);
    Pow2Add(n, k);
    Pow2Of64();
    Pow2Monotone(n + k, 64);
    assert x * p < WORD;
  }

  method MurmurHash3_x64_128(data: array<Byte>, seed: Word) returns (out: Lanes)
    requires data.Length < 0x8000_0000
    ensures out == Hash(data[..], seed)
  {
    hide Mul, Add, Rotl, Xor64, Shl, Fmix, Le64;
    ghost var d := data[..];
    var nblocks := data.Length / 16;
    var h1, h2 := seed, seed;
    for i := 0 to nblocks
      invariant Lanes(h1, h2) == Blocks(d, seed, i)
    {
      var k1 := GetBlock(data, 16 * i);
      var k2 := GetBlock(data, 16 * i + 8);
      assert d[16 * (i + 1) - 16..16 * (i + 1) - 8] == data[16 * i..16 * i + 8];
      assert d[16 * (i + 1) - 8..16 * (i + 1)] == data[16 * i + 8..16 * i + 16];
      k1 := Mul(k1, C1);
      k1 := Rotl(k1, 31);
      k1 := Mul(k1, C2);
      h1 := Xor64(h1, k1);
      h1 := Rotl(h1, 27);
      h1 := Add(h1, h2);
      h1 := Add(Mul(h1, 5), 0x52dce729);
      k2 := Mul(k2, C2);
      k2 := Rotl(k2, 33);
      k2 := Mul(k2, C1);
      h2 := Xor64(h2, k2);
      h2 := Rotl(h2, 31);
      h2 := Add(h2, h1);
      h2 := Add(Mul(h2, 5), 0x38495ab5);
    }
    ghost var b := Lanes(h1, h2);
    var base, rem := 16 * nblocks, data.Length % 16;
    h1, h2 := MixTail(data, base, rem, h1, h2);
    assert data[base..base + rem] == d[16 * nblocks..];
    h1 := Xor64(h1, data.Length);
    h2 := Xor64(h2, data.Length);
    h1 := Add(h1, h2);
    h2 := Add(h2, h1);
    h1 := Fmix(h1);
    h2 := Fmix(h2);
    h1 := Add(h1, h2);
    h2 := Add(h2, h1);
    out := Lanes(h1, h2);
  }

  lemma TailStep(t: seq<Byte>, lo: nat, j: nat)
    requires lo <= j < lo + 8 && |t| < 16
    ensures LaneFrom(t, lo, j) ==
            if j < |t| then Xor64(LaneFrom(t, lo, j + 1), Shl(t[j], 8 * (j - lo))) else LaneFrom(t, lo, j + 1)
  {
    if j < |t| { TailByte(t, lo, j); }
  }

  lemma LaneWhole(t: seq<Byte>, lo: nat)
    requires |t| < 16
    ensures LaneFrom(t, lo, lo + 8) == 0
    ensures |t| > lo ==> LaneFrom(t, lo, lo) == Le64(t[lo..if |t| < lo + 8 then |t| else lo + 8])
  {
  }

  /** The cases 15 down to 9 of the fall-through switch on the number of tail bytes. */
  method TailHigh(data: array<Byte>, base: nat, rem: nat) returns (k2: Word)
    requires rem < 16 && base + rem == data.Length
    ensures k2 == LaneFrom(data[base..base + rem], 8, 8)
  {
    hide Xor64, Shl, LaneFrom;
    ghost var t := data[base..base + rem];
    LaneWhole(t, 8);
    k2 := 0;
    TailStep(t, 8, 15);
    TailStep(t, 8, 14);
    if rem >= 15 { k2 := Xor64(k2, Shl(data[base + 14], 48)); }
    assert k2 == LaneFrom(t, 8, 14);
    TailStep(t, 8, 13);
    if rem >= 14 { k2 := Xor64(k2, Shl(data[base + 13], 40)); }
    assert k2 == LaneFrom(t, 8, 13);
    TailStep(t, 8, 12);
    if rem >= 13 { k2 := Xor64(k2, Shl(data[base + 12], 32)); }
    assert k2 == LaneFrom(t, 8, 12);
    TailStep(t, 8, 11);
    if rem >= 12 { k2 := Xor64(k2, Shl(data[base + 11], 24)); }
    assert k2 == LaneFrom(t, 8, 11);
    TailStep(t, 8, 10);
    if rem >= 11 { k2 := Xor64(k2, Shl(data[base + 10], 16)); }
    assert k2 == LaneFrom(t, 8, 10);
    TailStep(t, 8, 9);
    if rem >= 10 { k2 := Xor64(k2, Shl(data[base + 9], 8)); }
    assert k2 == LaneFrom(t, 8, 9);
    TailStep(t, 8, 8);
    if rem >= 9 { k2 := Xor64(k2, Shl(data[base + 8], 0)); }
    assert k2 == LaneFrom(t, 8, 8);
  }

  /** The cases 8 down to 1. */
  method TailLow(data: array<Byte>, base: nat, rem: nat) returns (k1: Word)
    requires rem < 16 && base + rem == data.Length
    ensures k1 == LaneFrom(data[base..base + rem], 0, 0)
  {
    hide Xor64, Shl, LaneFrom;
    ghost var t := data[base..base + rem];
    LaneWhole(t, 0);
    k1 := 0;
    TailStep(t, 0, 7);
    if rem >= 8 { k1 := Xor64(k1, Shl(data[base + 7], 56)); }
    assert k1 == LaneFrom(t, 0, 7);
    TailStep(t, 0, 6);
    if rem >= 7 { k1 := Xor64(k1, Shl(data[base + 6], 48)); }
    assert k1 == LaneFrom(t, 0, 6);
    TailStep(t, 0, 5);
    if rem >= 6 { k1 := Xor64(k1, Shl(data[base + 5], 40)); }
    assert k1 == LaneFrom(t, 0, 5);
    TailStep(t, 0, 4);
    if rem >= 5 { k1 := Xor64(k1, Shl(data[base + 4], 32)); }
    assert k1 == LaneFrom(t, 0, 4);
    TailStep(t, 0, 3);
    if rem >= 4 { k1 := Xor64(k1, Shl(data[base + 3], 24)); }
    assert k1 == LaneFrom(t, 0, 3);
    TailStep(t, 0, 2);
    if rem >= 3 { k1 := Xor64(k1, Shl(data[base + 2], 16)); }
    assert k1 == LaneFrom(t, 0, 2);
    TailStep(t, 0, 1);
    if rem >= 2 { k1 := Xor64(k1, Shl(data[base + 1], 8)); }
    assert k1 == LaneFrom(t, 0, 1);
    TailStep(t, 0, 0);
    if rem >= 1 { k1 := Xor64(k1, Shl(data[base + 0], 0)); }
    assert k1 == LaneFrom(t, 0, 0);
  }

  method MixTail(data: array<Byte>, base: nat, rem: nat, g1: Word, g2: Word) returns (h1: Word, h2: Word)
    requires rem < 16 && base + rem == data.Length
    ensures Lanes(h1, h2) == Tail(Lanes(g1, g2), data[base..base + rem])
  {
    hide Mul, Rotl, Xor64, Le64, LaneFrom;
    ghost var t := data[base..base + rem];
    h1, h2 := g1, g2;
    LaneWhole(t, 8);
    LaneWhole(t, 0);
    var k2 := TailHigh(data, base, rem);
    if rem >= 9 {
      assert t[8..|t|] == t[8..];
      k2 := Mul(k2, C2);
      k2 := Rotl(k2, 33);
      k2 := Mul(k2, C1);
      h2 := Xor64(h2, k2);
    }
    var k1 := TailLow(data, base, rem);
    if rem >= 1 {
      k1 := Mul(k1, C1);
      k1 := Rotl(k1, 31);
      k1 := Mul(k1, C2);
      h1 := Xor64(h1, k1);
    }
  }

  method GetBlock(data: array<Byte>, at: nat) returns (k: Word)
    requires at + 8 <= data.Length
    ensures k == Le64(data[at..at + 8])
  {
    k := 0;
    var j := 8;
    ghost var s := data[at..at + 8];
    while j > 0
      invariant 0 <= j <= 8 && k == Le64(s[j..])
    {
      j := j - 1;
      assert s[j..][1..] == s[j + 1..];
      assert Le64(s[j..]) == s[j] + 256 * k;
      k := data[at + j] + 256 * k;
    }
    assert s[0..] == s;
  }

  // ---------------------------------------------------------------- every step can be undone

  lemma MulInjective(c: Word, inverse: Word, x: Word, y: Word)
    requires c * inverse % WORD == 1
    requires Mul(x, c) == Mul(y, c)
    ensures x == y
  {
    SameResidue(x * c, y * c);
    SameResidue(c * inverse, 1);
    Subtract(x, y, c);
    var n := Cancel(x - y, c, inverse, x * c / WORD - y * c / WORD, c * inverse / WORD - 1 / WORD);
    Multiple(n, WORD);
  }

  lemma SameResidue(a: int, b: int)
    requires a % WORD == b % WORD
    ensures a - b == (a / WORD - b / WORD) * WORD
  {
  }

  /** d * c is a multiple of the word size and c has an inverse, so d is a multiple of the word size. */
  lemma Cancel(d: int, c: int, v: int, m: int, k: int) returns (n: int)
    requires d * c == m * WORD && c * v == 1 + k * WORD
    ensures n == m * v - d * k && d == n * WORD
  {
    n := m * v - d * k;
    calc {
      d;
      d * (c * v) - d * (k * WORD);
      { assert d * (c * v) == d * c * v; assert d * (k * WORD) == d * k * WORD; }
      m * WORD * v - d * k * WORD;
      { assert m * WORD * v == m * v * WORD; Subtract(m * v, d * k, WORD); }
      n * WORD;
    }
  }

  lemma AddInjective(z: Word, x: Word, y: Word)
    requires Add(x, z) == Add(y, z) || Add(z, x) == Add(z, y)
    ensures x == y
  {
  }

  lemma XorInjective(z: Word, x: Word, y: Word)
    requires Xor64(x, z) == Xor64(y, z) || Xor64(z, x) == Xor64(z, y)
    ensures x == y
  {
    XorCancel(x, z);
    XorCancel(y, z);
    XorCommutes(x, z);
    XorCommutes(y, z);
  }

  /** A rotation swaps the high and the low part. */
  lemma RotlParts(x: Word, r: nat)
    requires 0 < r < 64
    ensures Rotl(x, r) == x % Pow2(64 - r) * Pow2(r) + Drop(x, 64 - r)
    ensures 0 <= Drop(x, 64 - r) < Pow2(r)
  {
    hide Or;
    var p, q := Pow2(64 - r), Pow2(r);
    Pow2Add(64 - r, r);
    Pow2Of64();
    ShiftedParts(x, p, q);
    AddMultiple(0, x % p, q);
    DisjointBits(x % p * q, x / p, r);
  }

  lemma ShiftedParts(x: Word, p: int, q: int)
    requires p >= 1 && q >= 1 && p * q == WORD
    ensures x * q % WORD == x % p * q
    ensures 0 <= x / p < q && 0 <= x % p * q
  {
    ProductBelow(x, p, q);
    var h, l := x / p, x % p;
    Multiple(l, q);
    assert l * q < WORD by { Multiple(p - l, q); Subtract(p, l, q); }
    assert x * q == h * WORD + l * q by {
      assert x == h * p + l;
      Distribute(h * p, l, q);
      assert h * p * q == h * (p * q);
    }
    DivModUnique(x * q, WORD, h, l * q);
  }

  lemma RotlInjective(r: nat, x: Word, y: Word)
    requires 0 < r < 64 && Rotl(x, r) == Rotl(y, r)
    ensures x == y
  {
    hide Rotl;
    RotlParts(x, r);
    RotlParts(y, r);
    SameParts(x, y, Pow2(64 - r), Pow2(r));
  }

  lemma SameParts(x: Word, y: Word, p: int, q: int)
    requires p >= 1 && q >= 1 && 0 <= x / p < q && 0 <= y / p < q
    requires x % p * q + x / p == y % p * q + y / p
    ensures x == y
  {
    DivModUnique(x % p * q + x / p, q, x % p, x / p);
    DivModUnique(x % p * q + x / p, q, y % p, y / p);
    assert x == x / p * p + x % p && y == y / p * p + y % p;
  }

  /** An xorshift by at least half the width undoes itself. */
  lemma XorshiftTwice(x: Word, k: nat)
    requires 32 <= k < 64
    ensures var y := Xor64(x, Shr(x, k)); Xor64(y, Shr(y, k)) == x
  {
    var high := Drop(x, k);
    XorShift(x, high, k);
    DropTwice(x, k, k);
    Pow2Of64();
    Pow2Monotone(64, 2 * k);
    assert Drop(x, 2 * k) == 0 by { DivModUnique(x, Pow2(2 * k), 0, x); }
    XorZero(high);
    XorCancel(x, high);
  }

  lemma XorshiftInjective(k: nat, x: Word, y: Word)
    requires 32 <= k < 64 && Xor64(x, Shr(x, k)) == Xor64(y, Shr(y, k))
    ensures x == y
  {
    XorshiftTwice(x, k);
    XorshiftTwice(y, k);
  }

  lemma FmixInjective(x: Word, y: Word)
    requires Fmix(x) == Fmix(y)
    ensures x == y
  {
    hide Mul, Xor64, Shr;
    var x1, y1 := Xor64(x, Shr(x, 33)), Xor64(y, Shr(y, 33));
    var x2, y2 := Mul(x1, F1), Mul(y1, F1);
    var x3, y3 := Xor64(x2, Shr(x2, 33)), Xor64(y2, Shr(y2, 33));
    var x4, y4 := Mul(x3, F2), Mul(y3, F2);
    XorshiftInjective(33, x4, y4);
    MulInjective(F2, 0x9cb4b2f8129337db, x3, y3);
    XorshiftInjective(33, x2, y2);
    MulInjective(F1, 0x4f74430c22a54005, x1, y1);
    XorshiftInjective(33, x, y);
  }

  lemma MixInjective(x: Word, y: Word)
    ensures MixK1(x) == MixK1(y) ==> x == y
    ensures MixK2(x) == MixK2(y) ==> x == y
  {
    hide Mul, Rotl;
    if MixK1(x) == MixK1(y) {
      MulInjective(C2, 0xa81e14edd9de2c7f, Rotl(Mul(x, C1), 31), Rotl(Mul(y, C1), 31));
      RotlInjective(31, Mul(x, C1), Mul(y, C1));
      MulInjective(C1, 0xa98409e882ce4d7d, x, y);
    }
    if MixK2(x) == MixK2(y) {
      MulInjective(C1, 0xa98409e882ce4d7d, Rotl(Mul(x, C2), 33), Rotl(Mul(y, C2), 33));
      RotlInjective(33, Mul(x, C2), Mul(y, C2));
      MulInjective(C2, 0xa81e14edd9de2c7f, x, y);
    }
  }

  /** Half a round: rotate, add the other lane, times five plus a constant. */
  lemma StirInjective(r: nat, c: Word, g: Word, x: Word, y: Word)
    requires 0 < r < 64
    requires Add(Mul(Add(Rotl(x, r), g), 5), c) == Add(Mul(Add(Rotl(y, r), g), 5), c)
    ensures x == y
  {
    hide Mul, Rotl, Add;
    AddInjective(c, Mul(Add(Rotl(x, r), g), 5), Mul(Add(Rotl(y, r), g), 5));
    MulInjective(5, 0xcccccccccccccccd, Add(Rotl(x, r), g), Add(Rotl(y, r), g));
    AddInjective(g, Rotl(x, r), Rotl(y, r));
    RotlInjective(r, x, y);
  }

  /** From equal lanes after a round: equal lanes before it under the same block, and equal blocks under
      the same lanes. */
  lemma RoundInjective(h: Lanes, k1: Word, k2: Word, g: Lanes, l1: Word, l2: Word)
    requires Round(h, k1, k2) == Round(g, l1, l2)
    requires (k1 == l1 && k2 == l2) || h == g
    ensures h == g && k1 == l1 && k2 == l2
  {
    hide Mul, Rotl, Add, Xor64, MixK1, MixK2;
    var x2, y2 := Xor64(h.h2, MixK2(k2)), Xor64(g.h2, MixK2(l2));
    StirInjective(31, 0x38495ab5, Round(h, k1, k2).h1, x2, y2);
    if h == g { XorInjective(h.h2, MixK2(k2), MixK2(l2)); } else { XorInjective(MixK2(k2), h.h2, g.h2); }
    var x1, y1 := Xor64(h.h1, MixK1(k1)), Xor64(g.h1, MixK1(l1));
    StirInjective(27, 0x52dce729, h.h2, x1, y1);
    if h == g { XorInjective(h.h1, MixK1(k1), MixK1(l1)); } else { XorInjective(MixK1(k1), h.h1, g.h1); }
    MixInjective(k1, l1);
    MixInjective(k2, l2);
  }

  /** Finalisation separates everything but the lanes' exclusive or with the length. */
  lemma FinishSeparates(h: Lanes, m: Word, g: Lanes, n: Word)
    requires Finish(h, m) == Finish(g, n)
    ensures Xor64(h.h1, m) == Xor64(g.h1, n) && Xor64(h.h2, m) == Xor64(g.h2, n)
  {
    hide Add, Xor64, Fmix;
    var h1, h2 := Add(Xor64(h.h1, m), Xor64(h.h2, m)), Xor64(h.h2, m);
    var g1, g2 := Add(Xor64(g.h1, n), Xor64(g.h2, n)), Xor64(g.h2, n);
    var a, b := Add(h2, h1), Add(g2, g1);
    AddInjective(Finish(h, m).h1, Fmix(a), Fmix(b));
    AddInjective(Fmix(a), Fmix(h1), Fmix(g1));
    FmixInjective(a, b);
    FmixInjective(h1, g1);
    AddInjective(h1, h2, g2);
    AddInjective(h2, Xor64(h.h1, m), Xor64(g.h1, n));
  }

  lemma FinishInjective(h: Lanes, g: Lanes, len: Word)
    requires Finish(h, len) == Finish(g, len)
    ensures h == g
  {
    FinishSeparates(h, len, g, len);
    XorInjective(len, h.h1, g.h1);
    XorInjective(len, h.h2, g.h2);
  }

  /** On equal lanes finalisation separates different lengths. */
  lemma FinishSeparatesLengths(h: Lanes, m: Word, n: Word)
    requires Finish(h, m) == Finish(h, n)
    ensures m == n
  {
    FinishSeparates(h, m, h, n);
    XorInjective(h.h1, m, n);
  }

  lemma {:induction false} LeInjective(s: seq<Byte>, t: seq<Byte>)
    requires |s| == |t| && Le(s) == Le(t)
    ensures s == t
    decreases |s|
  {
    if s != [] {
      LeInjective(s[1..], t[1..]);
      assert s == [s[0]] + s[1..] && t == [t[0]] + t[1..];
    }
  }

  lemma TailLanes(h: Lanes, g: Lanes, t: seq<Byte>)
    requires |t| < 16 && Tail(h, t) == Tail(g, t)
    ensures h == g
  {
    hide Xor64, MixK1, MixK2, Le64;
    if |t| > 0 { XorInjective(MixK1(Le64(t[..if |t| < 8 then |t| else 8])), h.h1, g.h1); }
    if |t| > 8 { XorInjective(MixK2(Le64(t[8..])), h.h2, g.h2); }
  }

  lemma TailBytes(h: Lanes, s: seq<Byte>, t: seq<Byte>)
    requires |s| == |t| < 16 && Tail(h, s) == Tail(h, t)
    ensures s == t
  {
    hide Xor64, MixK1, MixK2, Le64;
    var m := if |s| < 8 then |s| else 8;
    if |s| > 0 {
      XorInjective(h.h1, MixK1(Le64(s[..m])), MixK1(Le64(t[..m])));
      MixInjective(Le64(s[..m]), Le64(t[..m]));
      Le64Injective(s[..m], t[..m]);
    }
    if |s| > 8 {
      XorInjective(h.h2, MixK2(Le64(s[8..])), MixK2(Le64(t[8..])));
      MixInjective(Le64(s[8..]), Le64(t[8..]));
      Le64Injective(s[8..], t[8..]);
    }
    assert s == s[..m] + s[m..] && t == t[..m] + t[m..];
  }

  // ---------------------------------------------------------------- main result

  /** a and b may differ only inside the i-th 16-byte window; the last window may be short. */
  predicate AgreeOutside(a: seq<Byte>, b: seq<Byte>, i: nat) {
    |a| == |b| && forall j :: 0 <= j < |a| && !(16 * i <= j < 16 * i + 16) ==> a[j] == b[j]
  }

  lemma SamePart(a: seq<Byte>, b: seq<Byte>, e: nat, lo: nat, hi: nat)
    requires lo <= hi <= e <= |a| && e <= |b| && a[..e] == b[..e]
    ensures a[lo..hi] == b[lo..hi]
  {
    assert a[lo..hi] == a[..e][lo..hi] && b[lo..hi] == b[..e][lo..hi];
  }

  lemma BlockOfPrefix(a: seq<Byte>, b: seq<Byte>, seed: Word, m: nat)
    requires 16 * m + 16 <= |a| && 16 * m + 16 <= |b| && a[..16 * m + 16] == b[..16 * m + 16]
    requires Blocks(a, seed, m) == Blocks(b, seed, m)
    ensures Blocks(a, seed, m + 1) == Blocks(b, seed, m + 1)
  {
    hide Round, Le64, Blocks;
    SamePart(a, b, 16 * m + 16, 16 * m, 16 * m + 8);
    SamePart(a, b, 16 * m + 16, 16 * m + 8, 16 * m + 16);
    BlocksUnfold(a, seed, m);
    BlocksUnfold(b, seed, m);
  }

  lemma {:induction false} BlocksOfPrefix(a: seq<Byte>, b: seq<Byte>, seed: Word, n: nat)
    requires 16 * n <= |a| && 16 * n <= |b| && a[..16 * n] == b[..16 * n]
    ensures Blocks(a, seed, n) == Blocks(b, seed, n)
    decreases n
  {
    hide Blocks;
    if n == 0 {
      NoBlocks(a, seed);
      NoBlocks(b, seed);
    } else {
      SamePart(a, b, 16 * n, 0, 16 * n - 16);
      assert a[..16 * n - 16] == a[0..16 * n - 16] && b[..16 * n - 16] == b[0..16 * n - 16];
      BlocksOfPrefix(a, b, seed, n - 1);
      BlockOfPrefix(a, b, seed, n - 1);
    }
  }

  lemma BlocksBefore(a: seq<Byte>, b: seq<Byte>, seed: Word, i: nat, n: nat)
    requires AgreeOutside(a, b, i) && n <= i && 16 * n <= |a|
    ensures Blocks(a, seed, n) == Blocks(b, seed, n)
  {
    assert a[..16 * n] == b[..16 * n];
    BlocksOfPrefix(a, b, seed, n);
  }

  lemma {:induction false} BlocksAfter(a: seq<Byte>, b: seq<Byte>, seed: Word, i: nat, n: nat)
    requires AgreeOutside(a, b, i) && i < n && 16 * n <= |a|
    requires Blocks(a, seed, n) == Blocks(b, seed, n)
    ensures Blocks(a, seed, i + 1) == Blocks(b, seed, i + 1)
    decreases n
  {
    hide Round, Le64;
    if n > i + 1 {
      var k1, k2 := Le64(a[16 * n - 16..16 * n - 8]), Le64(a[16 * n - 8..16 * n]);
      assert a[16 * n - 16..16 * n - 8] == b[16 * n - 16..16 * n - 8];
      assert a[16 * n - 8..16 * n] == b[16 * n - 8..16 * n];
      RoundInjective(Blocks(a, seed, n - 1), k1, k2, Blocks(b, seed, n - 1), k1, k2);
      BlocksAfter(a, b, seed, i, n - 1);
    }
  }

  /** No collision inside one window, for any length, seed and window: the hashes are equal exactly when
      the buffers are. */
  lemma NoCollision(a: seq<Byte>, b: seq<Byte>, seed: Word, i: nat)
    requires |a| < 0x8000_0000 && AgreeOutside(a, b, i)
    ensures Hash(a, seed) == Hash(b, seed) <==> a == b
  {
    hide Round, Le64, Finish, Tail;
    if Hash(a, seed) == Hash(b, seed) {
      var n := |a| / 16;
      var s, t := a[16 * n..], b[16 * n..];
      FinishInjective(Tail(Blocks(a, seed, n), s), Tail(Blocks(b, seed, n), t), |a|);
      if i < n { assert s == t; } else { BlocksBefore(a, b, seed, i, n); }
      if i < n {
        TailLanes(Blocks(a, seed, n), Blocks(b, seed, n), s);
        BlocksAfter(a, b, seed, i, n);
        BlocksBefore(a, b, seed, i, i);
        SameBlock(a, b, seed, i);
      } else {
        TailBytes(Blocks(a, seed, n), s, t);
      }
      assert a == a[..16 * n] + s && b == b[..16 * n] + t;
    }
  }

  lemma SameBlock(a: seq<Byte>, b: seq<Byte>, seed: Word, i: nat)
    requires AgreeOutside(a, b, i) && 16 * i + 16 <= |a|
    requires Blocks(a, seed, i) == Blocks(b, seed, i) && Blocks(a, seed, i + 1) == Blocks(b, seed, i + 1)
    ensures a == b
  {
    hide Round, Le64, Blocks;
    var s, m, e := 16 * i, 16 * i + 8, 16 * i + 16;
    BlocksUnfold(a, seed, i);
    BlocksUnfold(b, seed, i);
    RoundInjective(Blocks(a, seed, i), Le64(a[s..m]), Le64(a[m..e]), Blocks(b, seed, i), Le64(b[s..m]), Le64(b[m..e]));
    Le64Injective(a[s..m], b[s..m]);
    Le64Injective(a[m..e], b[m..e]);
    assert a == a[..s] + a[s..m] + a[m..e] + a[e..];
    assert b == b[..s] + b[s..m] + b[m..e] + b[e..];
    assert a[..s] == b[..s] && a[e..] == b[e..];
  }

  lemma NoBlocks(a: seq<Byte>, seed: Word)
    ensures Blocks(a, seed, 0) == Lanes(seed, seed)
  {
    hide Round, Le64;
  }

  lemma BlocksUnfold(a: seq<Byte>, seed: Word, i: nat)
    requires 16 * i + 16 <= |a|
    ensures Blocks(a, seed, i + 1) ==
            Round(Blocks(a, seed, i), Le64(a[16 * i..16 * i + 8]), Le64(a[16 * i + 8..16 * i + 16]))
  {
    assert 16 * (i + 1) - 16 == 16 * i && 16 * (i + 1) - 8 == 16 * i + 8;
  }

  lemma Le64Injective(s: seq<Byte>, t: seq<Byte>)
    requires |s| == |t| <= 8 && Le64(s) == Le64(t)
    ensures s == t
  {
    LeInjective(s, t);
  }

  // ---------------------------------------------------------------- the length and the seed

  function Zeros(k: nat): (z: seq<Byte>)
    ensures |z| == k
  {
    if k == 0 then [] else Zeros(k - 1) + [0]
  }

  lemma {:induction false} LeZero(s: seq<Byte>)
    ensures Le(s + [0]) == Le(s)
    decreases |s|
  {
    if s != [] {
      assert (s + [0])[1..] == s[1..] + [0];
      LeZero(s[1..]);
    }
  }

  lemma RotlZero(r: nat)
    requires 0 < r < 64
    ensures Rotl(0, r) == 0
  {
    hide Rotl;
    RotlParts(0, r);
    DropBound(0, 64 - r);
  }

  lemma MixZero(x: Word)
    ensures Xor64(x, MixK1(0)) == x && Xor64(x, MixK2(0)) == x
  {
    hide Rotl, Xor;
    RotlZero(31);
    RotlZero(33);
    assert MixK1(0) == 0 && MixK2(0) == 0;
    XorZero(x);
  }

  /** A zero byte more leaves the lanes as they are: only the length can tell. */
  lemma TailZero(h: Lanes, t: seq<Byte>)
    requires |t| < 15
    ensures Tail(h, t + [0]) == Tail(h, t)
  {
    hide Xor64, MixK1, MixK2;
    MixZero(h.h1);
    MixZero(h.h2);
    var u := t + [0];
    if |t| < 8 {
      assert u[..|t| + 1] == t + [0] && t[..|t|] == t;
      LeZero(t);
    } else {
      assert u[..8] == t[..8] && u[8..] == t[8..] + [0];
      LeZero(t[8..]);
    }
  }

  lemma {:induction false} TailZeros(h: Lanes, t: seq<Byte>, k: nat)
    requires |t| + k < 16
    ensures Tail(h, t + Zeros(k)) == Tail(h, t)
    decreases k
  {
    if k == 0 {
      assert t + Zeros(0) == t;
    } else {
      TailZeros(h, t, k - 1);
      TailZero(h, t + Zeros(k - 1));
      assert t + Zeros(k - 1) + [0] == t + Zeros(k);
    }
  }

  /** Zero bytes at the end are told apart by their number: for every length and seed, buffers that differ only in how
      many zeros end the last window have different hashes. */
  lemma TrailingZerosCount(d: seq<Byte>, seed: Word, k: nat)
    requires |d| + k < 0x8000_0000 && |d| % 16 + k < 16
    ensures Hash(d + Zeros(k), seed) == Hash(d, seed) <==> k == 0
  {
    hide Tail, Finish, Round;
    var n, e := |d| / 16, d + Zeros(k);
    assert k == 0 ==> e == d;
    assert |e| / 16 == n && e[16 * n..] == d[16 * n..] + Zeros(k);
    assert e[..16 * n] == d[..16 * n];
    BlocksOfPrefix(e, d, seed, n);
    TailZeros(Blocks(d, seed, n), d[16 * n..], k);
    if Hash(e, seed) == Hash(d, seed) {
      FinishSeparatesLengths(Tail(Blocks(d, seed, n), d[16 * n..]), |e|, |d|);
    }
  }

  lemma BlockSeparatesLanes(d: seq<Byte>, s: Word, t: Word, m: nat)
    requires 16 * m + 16 <= |d| && Blocks(d, s, m + 1) == Blocks(d, t, m + 1)
    ensures Blocks(d, s, m) == Blocks(d, t, m)
  {
    hide Round, Le64, Blocks;
    var k1, k2 := Le64(d[16 * m..16 * m + 8]), Le64(d[16 * m + 8..16 * m + 16]);
    BlocksUnfold(d, s, m);
    BlocksUnfold(d, t, m);
    RoundInjective(Blocks(d, s, m), k1, k2, Blocks(d, t, m), k1, k2);
  }

  lemma {:induction false} BlocksSeparateSeeds(d: seq<Byte>, s: Word, t: Word, n: nat)
    requires 16 * n <= |d| && Blocks(d, s, n) == Blocks(d, t, n)
    ensures s == t
    decreases n
  {
    hide Blocks;
    if n == 0 {
      NoBlocks(d, s);
      NoBlocks(d, t);
    } else {
      BlockSeparatesLanes(d, s, t, n - 1);
      BlocksSeparateSeeds(d, s, t, n - 1);
    }
  }

  /** Different seeds give every buffer different hashes. */
  lemma SeedCounts(d: seq<Byte>, s: Word, t: Word)
    requires |d| < 0x8000_0000
    ensures Hash(d, s) == Hash(d, t) <==> s == t
  {
    if Hash(d, s) == Hash(d, t) {
      hide Finish, Tail, Blocks;
      var n := |d| / 16;
      FinishInjective(Tail(Blocks(d, s, n), d[16 * n..]), Tail(Blocks(d, t, n), d[16 * n..]), |d|);
      TailLanes(Blocks(d, s, n), Blocks(d, t, n), d[16 * n..]);
      BlocksSeparateSeeds(d, s, t, n);
    }
  }
}
