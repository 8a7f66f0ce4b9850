/** Reference values of the steps of the hash (fuzzer/murmur3.cpp). The laws of Murmur3 hold of any hash of its shape;
    these values tell its constants, its rotations and the order of its two lanes from others. */
module Murmur3Values {
  import opened Murmur3
  import opened Words

  lemma Powers()
    ensures Pow2(27) == 0x800_0000 && Pow2(31) == 0x8000_0000 && Pow2(33) == 0x2_0000_0000 && Pow2(37) == 0x20_0000_0000
  {
    assert Pow2(3) == 8 && Pow2(6) == 64 && Pow2(9) == 512;
    Pow2Add(9, 9);
    Pow2Add(9, 18);
    Pow2Add(4, 27);
    Pow2Add(6, 27);
    Pow2Add(6, 31);
  }

  lemma RotlValue(x: Word, r: nat, p: int, q: int)
    requires 0 < r < 64 && Pow2(r) == p && Pow2(64 - r) == q
    ensures Rotl(x, r) == x % q * p + x / q
  {
    RotlParts(x, r);
  }

  lemma MixValues()
    ensures MixK1(1) == 0x34e0_9d0b_6bde_fe38 && MixK2(1) == 0x4e26_f553_9bb7_c37e
  {
    hide Rotl;
    Powers();
    RotlValue(C1, 31, 0x8000_0000, 0x2_0000_0000);
    RotlValue(C2, 33, 0x2_0000_0000, 0x8000_0000);
  }

  /** The lanes once the mixed words are in, given the two rotated lanes. */
  lemma RoundOf(h: Lanes, k1: Word, k2: Word, x: Word, y: Word)
    requires x == Rotl(Xor64(h.h1, MixK1(k1)), 27) && y == Rotl(Xor64(h.h2, MixK2(k2)), 31)
    ensures var h1 := ((x + h.h2) * 5 + 0x52dc_e729) % WORD;
            Round(h, k1, k2) == Lanes(h1, ((y + h1) * 5 + 0x3849_5ab5) % WORD)
  {
    hide Rotl, MixK1, MixK2, Xor64;
    Wraps(x + h.h2, 0x52dc_e729);
    Wraps(y + Round(h, k1, k2).h1, 0x3849_5ab5);
  }

  lemma Wraps(a: nat, c: nat)
    ensures (a % WORD * 5 % WORD + c) % WORD == (a * 5 + c) % WORD
  {
    var r := a % WORD * 5;
    AddMultiple(r % WORD + c, a / WORD * 5 + r / WORD, WORD);
  }

  /** A round whose exclusive ors and rotations are known. */
  lemma RoundWith(h: Lanes, k1: Word, k2: Word, x: Word, y: Word)
    requires (h.h1 == 0 && x == MixK1(k1)) || (k1 == 0 && x == h.h1)
    requires (h.h2 == 0 && y == MixK2(k2)) || (k2 == 0 && y == h.h2)
    ensures var x', y' := x % 0x20_0000_0000 * 0x800_0000 + x / 0x20_0000_0000, y % 0x2_0000_0000 * 0x8000_0000 + y / 0x2_0000_0000;
            var h1 := ((x' + h.h2) * 5 + 0x52dc_e729) % WORD;
            Round(h, k1, k2) == Lanes(h1, ((y' + h1) * 5 + 0x3849_5ab5) % WORD)
  {
    hide Rotl, MixK1, MixK2, Xor64, Round, Pow2;
    Meets(h.h1, MixK1(k1), k1);
    Meets(h.h2, MixK2(k2), k2);
    Powers();
    RotlValue(x, 27, 0x800_0000, 0x20_0000_0000);
    RotlValue(y, 31, 0x8000_0000, 0x2_0000_0000);
    RoundOf(h, k1, k2, Rotl(x, 27), Rotl(y, 31));
  }

  lemma Meets(a: Word, m: Word, k: Word)
    ensures a == 0 ==> Xor64(a, m) == m
    ensures k == 0 && (m == MixK1(k) || m == MixK2(k)) ==> Xor64(a, m) == a
  {
    hide MixK1, MixK2, Xor;
    XorZero(m);
    MixZero(a);
  }

  /** Each input of a round on its own: the second lane takes in the new first one, not the other way round. */
  lemma RoundValues()
    ensures Round(Lanes(0, 0), 0, 0) == Lanes(0x52dc_e729, 0x1_d699_de82)
    ensures Round(Lanes(0, 0), 1, 0) == Lanes(0xc8da_d7b9_1b1f_ffb1, 0xec46_369d_bfe9_592a)
    ensures Round(Lanes(0, 0), 0, 1) == Lanes(0x52dc_e729, 0x54b_68bd_99fb_43cf)
    ensures Round(Lanes(1, 0), 0, 0) == Lanes(0x7adc_e729, 0x2_9e99_de82)
    ensures Round(Lanes(0, 1), 0, 0) == Lanes(0x52dc_e72e, 0x4_5699_de9b)
  {
    MixValues();
    hide Round, MixK1, MixK2;
    RoundWith(Lanes(0, 0), 0, 0, 0, 0);
    RoundWith(Lanes(0, 0), 1, 0, MixK1(1), 0);
    RoundWith(Lanes(0, 0), 0, 1, 0, MixK2(1));
    RoundWith(Lanes(1, 0), 0, 0, 1, 0);
    RoundWith(Lanes(0, 1), 0, 0, 0, 1);
  }

  /** Bytes 0 to 7 of a block go into the first lane, 8 to 15 into the second, the first byte lowest. */
  lemma BlockValues()
    ensures Blocks([1] + Zeros(15), 0, 1) == Lanes(0xc8da_d7b9_1b1f_ffb1, 0xec46_369d_bfe9_592a)
    ensures Blocks(Zeros(8) + [1] + Zeros(7), 0, 1) == Lanes(0x52dc_e729, 0x54b_68bd_99fb_43cf)
  {
    hide Round, Blocks, Le64;
    RoundValues();
    OneLow();
    var a, b := [1] + Zeros(15), Zeros(8) + [1] + Zeros(7);
    NoBlocks(a, 0);
    NoBlocks(b, 0);
    BlocksUnfold(a, 0, 0);
    BlocksUnfold(b, 0, 0);
    ZerosAt(15);
    ZerosAt(8);
    ZerosAt(7);
    assert a[0..8] == [1] + Zeros(7) && a[8..16] == Zeros(8);
    assert b[0..8] == Zeros(8) && b[8..16] == [1] + Zeros(7);
  }

  lemma OneLow()
    ensures Le64(Zeros(8)) == 0 && Le64([1] + Zeros(7)) == 1
  {
    hide Le, Zeros;
    LeOfZeros(8);
    LeOfZeros(7);
    LeOne(Zeros(7));
  }

  lemma LeOfOne()
    ensures Le64([1]) == 1
  {
    LeOne([]);
    assert [1] + [] == [1];
  }

  /** A ninth tail byte is the first of the second lane. */
  lemma TailValues()
    ensures Tail(Lanes(0, 0), [1]) == Lanes(0x34e0_9d0b_6bde_fe38, 0)
    ensures Tail(Lanes(0, 0), Zeros(8) + [1]) == Lanes(0, 0x4e26_f553_9bb7_c37e)
  {
    hide Xor, Le64, MixK1, MixK2, Zeros;
    MixValues();
    MixZero(0);
    OneLow();
    LeOfOne();
    XorZero(MixK1(1));
    XorZero(MixK2(1));
    var t := Zeros(8) + [1];
    assert [1][..1] == [1] && t[..8] == Zeros(8) && t[8..] == [1];
  }

  lemma {:induction false} ZerosAt(k: nat)
    ensures forall i :: 0 <= i < k ==> Zeros(k)[i] == 0
  {
    if k > 0 { ZerosAt(k - 1); }
  }

  lemma {:induction false} LeOfZeros(k: nat)
    ensures Le(Zeros(k)) == 0
  {
    if k > 0 {
      LeOfZeros(k - 1);
      LeZero(Zeros(k - 1));
    }
  }

  lemma LeOne(s: seq<Byte>)
    ensures Le([1] + s) == 1 + 256 * Le(s)
  {
    assert ([1] + s)[1..] == s;
  }

  // ---------------------------------------------------------------- finalisation

  function Differ(x: nat, y: nat): nat { if x == y then 0 else 1 }

  lemma XorBit(a: nat, b: nat, c: nat, x: nat, y: nat)
    requires Xor(a, b) == c && x < 2 && y < 2
    ensures Xor(2 * a + x, 2 * b + y) == 2 * c + Differ(x, y)
  {
    XorParts(2 * a + x, 2 * b + y);
  }

  lemma XorTwoBits(a: nat, b: nat, c: nat, x: nat, y: nat)
    requires Xor(a, b) == c && x < 4 && y < 4
    ensures Xor(4 * a + x, 4 * b + y) == 4 * c + 2 * Differ(x / 2, y / 2) + Differ(x % 2, y % 2)
  {
    hide Xor, Differ;
    XorBit(a, b, c, x / 2, y / 2);
    XorBit(2 * a + x / 2, 2 * b + y / 2, 2 * c + Differ(x / 2, y / 2), x % 2, y % 2);
  }

  /** One hexadecimal digit more on each side of an exclusive or. */
  lemma XorNibble(a: nat, b: nat, c: nat, x: nat, y: nat)
    requires Xor(a, b) == c && x < 16 && y < 16
    ensures Xor(16 * a + x, 16 * b + y) ==
            16 * c + 8 * Differ(x / 4 / 2, y / 4 / 2) + 4 * Differ(x / 4 % 2, y / 4 % 2)
            + 2 * Differ(x % 4 / 2, y % 4 / 2) + Differ(x % 4 % 2, y % 4 % 2)
  {
    hide Xor, Differ;
    var d := 4 * c + 2 * Differ(x / 4 / 2, y / 4 / 2) + Differ(x / 4 % 2, y / 4 % 2);
    XorTwoBits(a, b, c, x / 4, y / 4);
    XorTwoBits(4 * a + x / 4, 4 * b + y / 4, d, x % 4, y % 4);
  }

  lemma FirstXorshift()
    ensures Xor(0xd9fc_c971_ed55_8ccd, 0x6cfe_64b8) == 0xd9fc_c971_81ab_e875
  {
    hide Xor;
    XorZero(0xd9fcc971);
    XorNibble(0xd9fcc971, 0x0, 0xd9fcc971, 0xe, 0x6);
    XorNibble(0xd9fcc971e, 0x6, 0xd9fcc9718, 0xd, 0xc);
    XorNibble(0xd9fcc971ed, 0x6c, 0xd9fcc97181, 0x5, 0xf);
    XorNibble(0xd9fcc971ed5, 0x6cf, 0xd9fcc97181a, 0x5, 0xe);
    XorNibble(0xd9fcc971ed55, 0x6cfe, 0xd9fcc97181ab, 0x8, 0x6);
    XorNibble(0xd9fcc971ed558, 0x6cfe6, 0xd9fcc97181abe, 0xc, 0x4);
    XorNibble(0xd9fcc971ed558c, 0x6cfe64, 0xd9fcc97181abe8, 0xc, 0xb);
    XorNibble(0xd9fcc971ed558cc, 0x6cfe64b, 0xd9fcc97181abe87, 0xd, 0x8);
  }

  lemma LastXorshift()
    ensures Xor(0x6b80_f859_2bd1_39ef, 0x35c0_7c2c) == 0x6b80_f859_1e11_45c3
  {
    hide Xor;
    XorZero(0x6b80f859);
    XorNibble(0x6b80f859, 0x0, 0x6b80f859, 0x2, 0x3);
    XorNibble(0x6b80f8592, 0x3, 0x6b80f8591, 0xb, 0x5);
    XorNibble(0x6b80f8592b, 0x35, 0x6b80f8591e, 0xd, 0xc);
    XorNibble(0x6b80f8592bd, 0x35c, 0x6b80f8591e1, 0x1, 0x0);
    XorNibble(0x6b80f8592bd1, 0x35c0, 0x6b80f8591e11, 0x3, 0x7);
    XorNibble(0x6b80f8592bd13, 0x35c07, 0x6b80f8591e114, 0x9, 0xc);
    XorNibble(0x6b80f8592bd139, 0x35c07c, 0x6b80f8591e1145, 0xe, 0x2);
    XorNibble(0x6b80f8592bd139e, 0x35c07c2, 0x6b80f8591e1145c, 0xf, 0xc);
  }

  lemma XorshiftValue(x: Word, high: nat, r: nat)
    requires high == x / 0x2_0000_0000 && Xor(x, high) == r
    ensures Xor64(x, Shr(x, 33)) == r
  {
    hide Xor, Pow2;
    Powers();
  }

  lemma FmixSteps(k: Word, a: Word, b: Word, c: Word, d: Word, e: Word)
    requires Xor64(k, Shr(k, 33)) == a && a * F1 % WORD == b
    requires Xor64(b, Shr(b, 33)) == c && c * F2 % WORD == d && Xor64(d, Shr(d, 33)) == e
    ensures Fmix(k) == e
  {
    hide Xor64, Shr;
  }

  lemma SecondBit()
    ensures Xor(0x2_0000_0000, 1) == 0x2_0000_0001
  {
    hide Xor, Pow2;
    Powers();
    DisjointBits(0x2_0000_0000, 1, 33);
  }

  /** The final mix of a word that each of the three xorshifts changes. */
  lemma FmixValue()
    ensures Fmix(0x2_0000_0000) == 0x6b80_f859_1e11_45c3
  {
    hide Xor, Xor64, Shr, Fmix;
    SecondBit();
    XorshiftValue(0x2_0000_0000, 1, 0x2_0000_0001);
    FirstXorshift();
    XorshiftValue(0xd9fc_c971_ed55_8ccd, 0x6cfe_64b8, 0xd9fc_c971_81ab_e875);
    LastXorshift();
    XorshiftValue(0x6b80_f859_2bd1_39ef, 0x35c0_7c2c, 0x6b80_f859_1e11_45c3);
    FmixSteps(0x2_0000_0000, 0x2_0000_0001, 0xd9fc_c971_ed55_8ccd, 0xd9fc_c971_81ab_e875, 0x6b80_f859_2bd1_39ef,
              0x6b80_f859_1e11_45c3);
  }

  lemma FmixZero()
    ensures Fmix(0) == 0
  {
    hide Xor, Xor64, Shr, Fmix;
    XorZero(0);
    XorshiftValue(0, 0, 0);
    FmixSteps(0, 0, 0, 0, 0, 0);
  }

  /** The order of the two lanes behind the final mix. */
  lemma FinishValue()
    ensures Finish(Lanes(WORD - 0x2_0000_0000, 0x2_0000_0000), 0) == Lanes(0x6b80_f859_1e11_45c3, 0xd701_f0b2_3c22_8b86)
  {
    hide Xor, Fmix;
    FmixZero();
    FmixValue();
    XorZero(WORD - 0x2_0000_0000);
    XorZero(0x2_0000_0000);
  }
}
