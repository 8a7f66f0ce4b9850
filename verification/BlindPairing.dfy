/** Block ids without a store (fuzzer/knowledge.cpp, the blind branch of get_block_element): Szudzik's
    pairing of a function and a block number, computed in 32 bits. */
module BlindPairing {
  const LIMIT := 0x1_0000
  const U32 := 0x1_0000_0000

  /** As the source computes it: every operation on 32-bit unsigned numbers. */
  function Pair(func: nat, block: nat): nat
    requires func < U32 && block < U32
  {
    if func >= block then (func * func % U32 + func + block) % U32 else (func + block * block % U32) % U32
  }

  /** The same without a limit on the width. */
  function Exact(func: nat, block: nat): nat {
    if func >= block then func * func + func + block else func + block * block
  }

  function Root(n: nat, below: nat): (r: nat)
    requires n < below * below
    ensures r * r <= n < (r + 1) * (r + 1) && r < below
    decreases below
  {
    if (below - 1) * (below - 1) <= n then below - 1 else Root(n, below - 1)
  }

  function Unpair(n: nat): (nat, nat)
    requires n < U32
  {
    var r := Root(n, LIMIT);
    if n - r * r < r then (n - r * r, r) else (r, n - r * r - r)
  }

  lemma Scaled(x: nat, y: nat, z: nat)
    requires x <= y
    ensures x * z <= y * z && z * x <= z * y
  {
    assert y * z == x * z + (y - x) * z;
  }

  lemma NextSquare(m: nat)
    ensures (m + 1) * (m + 1) == m * m + m + m + 1
  {
  }

  lemma Square(a: nat, b: nat)
    requires a < b
    ensures (a + 1) * (a + 1) <= b * b && a * a < b * b
  {
    Scaled(a + 1, b, a + 1);
    Scaled(a + 1, b, b);
    NextSquare(a);
  }

  lemma RootUnique(n: nat, r: nat, s: nat)
    requires r * r <= n < (r + 1) * (r + 1) && s * s <= n < (s + 1) * (s + 1)
    ensures r == s
  {
    if r < s { Square(r, s); } else if s < r { Square(s, r); }
  }

  lemma Fits(m: nat)
    requires m < LIMIT
    ensures m * m + m + m < U32
  {
    Square(m, LIMIT);
    NextSquare(m);
  }

  lemma Wraps(x: nat)
    requires x < U32
    ensures x % U32 == x
  {
  }

  /** In range the 32-bit computation is the exact one. */
  lemma NoOverflow(func: nat, block: nat)
    requires func < LIMIT && block < LIMIT
    ensures Exact(func, block) < U32 && Pair(func, block) == Exact(func, block)
  {
    if func >= block {
      Fits(func);
      Wraps(func * func);
      Wraps(func * func + func + block);
    } else {
      Fits(block);
      Wraps(block * block);
      Wraps(func + block * block);
    }
  }

  lemma UnpairPair(func: nat, block: nat)
    requires func < LIMIT && block < LIMIT
    ensures Unpair(Pair(func, block)) == (func, block)
  {
    NoOverflow(func, block);
    var n := Exact(func, block);
    var m := if func >= block then func else block;
    NextSquare(m);
    RootUnique(n, Root(n, LIMIT), m);
  }

  lemma PairUnpair(n: nat)
    requires n < U32
    ensures Unpair(n).0 < LIMIT && Unpair(n).1 < LIMIT && Pair(Unpair(n).0, Unpair(n).1) == n
  {
    var r := Root(n, LIMIT);
    NextSquare(r);
    NoOverflow(Unpair(n).0, Unpair(n).1);
  }

  /** The order of the codes: the pairs whose larger number is m take the codes from m^2 up to the next square, first
      those with block m by function, then those with function m by block. */
  lemma Shells(m: nat, k: nat)
    requires m < LIMIT && k <= m
    ensures k < m ==> Pair(k, m) == m * m + k
    ensures Pair(m, k) == m * m + m + k
    ensures m * m + m + k < (m + 1) * (m + 1)
  {
    NextSquare(m);
    NoOverflow(m, k);
    if k < m { NoOverflow(k, m); }
  }

  /** The pairing is a bijection from the pairs in range onto all 32-bit numbers. Hence the code of a pair
      is not shared with a pair in range exactly when the pair is itself in range. */
  lemma IdentifiesExactlyInRange(func: nat, block: nat)
    requires func < U32 && block < U32
    ensures (func < LIMIT && block < LIMIT) <==>
            (forall f, b :: 0 <= f < LIMIT && 0 <= b < LIMIT && Pair(f, b) == Pair(func, block) ==> (f, b) == (func, block))
  {
    var n := Pair(func, block);
    PairUnpair(n);
    if func < LIMIT && block < LIMIT {
      forall f, b | 0 <= f < LIMIT && 0 <= b < LIMIT && Pair(f, b) == n ensures (f, b) == (func, block) {
        UnpairPair(f, b);
        UnpairPair(func, block);
      }
    }
  }
}
