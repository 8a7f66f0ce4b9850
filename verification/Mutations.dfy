/** The byte mutators (fuzzer/mutations.cpp). Each clones an individual into a slot of its own and edits that
    slot; the random draws are parameters, in the range that the generator draws from. */
module Mutations {
  import opened Handles
  import opened Memory
  import opened Words
  import Murmur3

  // ---------------------------------------------------------------- single bits

  function And(a: nat, b: nat): nat
    decreases a + b
  {
    if a == 0 && b == 0 then 0 else 2 * And(a / 2, b / 2) + (if a % 2 == 1 && b % 2 == 1 then 1 else 0)
  }

  function BitAt(x: nat, k: nat): nat {
    if k == 0 then x % 2 else BitAt(x / 2, k - 1)
  }

  lemma {:induction false} AndBelow(a: nat, b: nat)
    ensures And(a, b) <= a
    decreases a + b
  {
    if a != 0 || b != 0 { AndBelow(a / 2, b / 2); }
  }

  /** The complement of one bit among the low n. */
  function Others(n: nat, k: nat): nat
    requires k < n
  {
    Pow2Monotone(k, n);
    Pow2(n) - 1 - Pow2(k)
  }

  lemma {:induction false} Clears(x: nat, n: nat, k: nat)
    requires k < n && x < Pow2(n)
    ensures And(x, Pow2(k)) == BitAt(x, k) * Pow2(k)
    ensures BitAt(x, k) == 1 ==> And(x, Others(n, k)) == x - Pow2(k) >= 0
    decreases n
  {
    if k == 0 {
      AndOdd(x);
      AndEven(x, n);
    } else {
      Clears(x / 2, n - 1, k - 1);
      assert Pow2(k) / 2 == Pow2(k - 1) && Others(n, k) / 2 == Others(n - 1, k - 1) && Others(n, k) % 2 == 1;
    }
  }

  lemma {:induction false} AndZero(a: nat)
    ensures And(a, 0) == 0
  {
    if a != 0 { AndZero(a / 2); }
  }

  lemma AndOdd(x: nat)
    ensures And(x, 1) == x % 2
  {
    AndZero(x / 2);
  }

  lemma AndHalves(a: nat, b: nat)
    ensures And(a, b) == 2 * And(a / 2, b / 2) + (if a % 2 == 1 && b % 2 == 1 then 1 else 0)
  {
  }

  lemma {:induction false} AndOnes(x: nat, n: nat)
    requires x < Pow2(n)
    ensures And(x, Pow2(n) - 1) == x
    decreases n
  {
    if n > 0 {
      AndOnes(x / 2, n - 1);
      AndHalves(x, 2 * (Pow2(n - 1) - 1) + 1);
    }
  }

  lemma AndEven(x: nat, n: nat)
    requires n > 0 && x < Pow2(n)
    ensures x % 2 == 1 ==> And(x, Others(n, 0)) == x - 1
  {
    AndOnes(x / 2, n - 1);
    assert Others(n, 0) / 2 == Pow2(n - 1) - 1 && Others(n, 0) % 2 == 0;
  }

  lemma {:induction false} Sets(x: nat, k: nat)
    ensures BitAt(x, k) == 0 ==> Or(x, Pow2(k)) == x + Pow2(k)
    decreases k
  {
    if k == 0 {
      OrZero(x / 2);
    } else {
      Sets(x / 2, k - 1);
      assert Pow2(k) / 2 == Pow2(k - 1) && Pow2(k) % 2 == 0;
    }
  }

  /** As the mutator computes it: clear the bit when it is set, set it otherwise. */
  function Flip(x: Byte, bit: nat): Byte
    requires bit < 8
  {
    var mask := Pow2(bit);
    AndBelow(x, Others(8, bit));
    OrBound(x, mask, 8);
    Pow2Monotone(bit + 1, 8);
    if And(x, mask) != 0 then And(x, Others(8, bit)) else Or(x, mask)
  }

  lemma FlipValue(x: Byte, bit: nat)
    requires bit < 8
    ensures Flip(x, bit) == if BitAt(x, bit) == 1 then x - Pow2(bit) else x + Pow2(bit)
  {
    hide And, Or, Others, BitAt;
    Clears(x, 8, bit);
    Sets(x, bit);
    BitIsBit(x, bit);
    if BitAt(x, bit) == 1 { assert And(x, Pow2(bit)) == Pow2(bit); } else { assert And(x, Pow2(bit)) == 0; }
  }

  lemma {:induction false} BitIsBit(x: nat, k: nat)
    ensures 0 <= BitAt(x, k) <= 1
  {
    if k > 0 { BitIsBit(x / 2, k - 1); }
  }

  /** Adding or taking away 2^k according to bit k changes that bit and no other. */
  lemma {:induction false} OnlyThatBit(x: nat, k: nat, j: nat)
    ensures var y := if BitAt(x, k) == 1 then x - Pow2(k) else x + Pow2(k);
            y >= 0 && BitAt(y, j) == if j == k then 1 - BitAt(x, j) else BitAt(x, j)
    decreases k
  {
    BitIsBit(x, k);
    var y := if BitAt(x, k) == 1 then x - Pow2(k) else x + Pow2(k);
    if k == 0 {
      assert y / 2 == x / 2 && y % 2 == 1 - x % 2;
    } else {
      OnlyThatBit(x / 2, k - 1, if j == 0 then 0 else j - 1);
      assert Pow2(k) == 2 * Pow2(k - 1);
      assert y % 2 == x % 2;
      assert y / 2 == if BitAt(x / 2, k - 1) == 1 then x / 2 - Pow2(k - 1) else x / 2 + Pow2(k - 1);
    }
  }

  /** Flipping a bit changes exactly that bit, hence the byte; flipping it again restores the byte. */
  lemma FlipsExactlyOneBit(x: Byte, bit: nat, j: nat)
    requires bit < 8
    ensures BitAt(Flip(x, bit), j) == if j == bit then 1 - BitAt(x, j) else BitAt(x, j)
    ensures Flip(x, bit) != x && Flip(Flip(x, bit), bit) == x
  {
    FlipValue(x, bit);
    BitIsBit(x, bit);
    OnlyThatBit(x, bit, j);
    OnlyThatBit(x, bit, bit);
    FlipValue(Flip(x, bit), bit);
  }

  // ---------------------------------------------------------------- what the mutators do to the bytes

  function Inserted(d: seq<Byte>, idx: nat, b: Byte): seq<Byte>
    requires idx <= |d|
  {
    d[..idx] + [b] + d[idx..]
  }

  function Erased(d: seq<Byte>, idx: nat): seq<Byte>
    requires idx < |d|
  {
    d[..idx] + d[idx + 1..]
  }

  function Swapped(d: seq<Byte>, i: nat, j: nat): seq<Byte>
    requires i < |d| && j < |d|
  {
    d[i := d[j]][j := d[i]]
  }

  /** n copies of a segment, one after the other. */
  function Times(segment: seq<Byte>, n: nat): (r: seq<Byte>)
    ensures |r| == n * |segment|
  {
    if n == 0 then [] else Times(segment, n - 1) + segment
  }

  /** The segment of the given length at idx, repeated `copies` times in its place. */
  function Repeated(d: seq<Byte>, idx: nat, range: nat, copies: nat): seq<Byte>
    requires idx + range <= |d|
  {
    d[..idx] + Times(d[idx..idx + range], copies) + d[idx + range..]
  }

  lemma TimesOnce(segment: seq<Byte>)
    ensures Times(segment, 1) == segment
  {
    assert Times(segment, 0) == [];
  }

  lemma {:induction false} TimesFirst(segment: seq<Byte>, n: nat)
    ensures Times(segment, n + 1) == segment + Times(segment, n)
  {
    if n == 0 {
      TimesOnce(segment);
    } else {
      TimesFirst(segment, n - 1);
      assert segment + Times(segment, n) == (segment + Times(segment, n - 1)) + segment;
    }
  }

  // ---------------------------------------------------------------- the edits undo each other

  /** remove_bytes takes back what insert_bytes opened, whatever was written into the gap. */
  lemma RemoveUndoesInsert(before: seq<Byte>, gap: seq<Byte>, after: seq<Byte>, start: nat, n: nat)
    requires start <= |before| && Gapped(before, gap, start, n)
    requires |after| == |gap| && after[..start] == gap[..start] && after[start + n..] == gap[start + n..]
    ensures after[..start] + after[start + n..] == before
  {
    assert before == before[..start] + before[start..];
  }

  /** The edits position by position. */
  lemma EditsByPosition(d: seq<Byte>, i: nat, j: nat, b: Byte, k: nat)
    requires i < |d| && j < |d| && k < |d|
    ensures var r := Inserted(d, i, b); |r| == |d| + 1 && r[i] == b && r[if k < i then k else k + 1] == d[k]
    ensures var r := Erased(d, i); |r| == |d| - 1 && (k != i ==> r[if k < i then k else k - 1] == d[k])
    ensures var r := Swapped(d, i, j); |r| == |d| && r[k] == d[if k == i then j else if k == j then i else k]
  {
  }

  /** Byte k of the i-th copy is byte k of the segment. */
  lemma {:induction false} CopyOfSegment(segment: seq<Byte>, n: nat, i: nat, k: nat)
    requires i < n && k < |segment|
    ensures i * |segment| + k < |Times(segment, n)| && Times(segment, n)[i * |segment| + k] == segment[k]
    decreases n
  {
    var m := |segment|;
    assert n * m == (n - 1) * m + m by { Distribute(n - 1, 1, m); }
    if i < n - 1 {
      CopyOfSegment(segment, n - 1, i, k);
    }
  }

  lemma EraseUndoesInsert(d: seq<Byte>, idx: nat, b: Byte)
    requires idx <= |d|
    ensures Erased(Inserted(d, idx, b), idx) == d
  {
    assert d == d[..idx] + d[idx..];
  }

  lemma SwapIsItsOwnInverse(d: seq<Byte>, i: nat, j: nat)
    requires i < |d| && j < |d|
    ensures Swapped(Swapped(d, i, j), i, j) == d && multiset(Swapped(d, i, j)) == multiset(d)
  {
  }

  /** Taking the extra copies out again restores the buffer: only copies of the segment were added. */
  lemma RepeatedRestores(d: seq<Byte>, idx: nat, range: nat, extra: nat)
    requires idx + range <= |d|
    ensures var r, more := Repeated(d, idx, range, extra + 1), Times(d[idx..idx + range], extra);
            r == d[..idx + range] + more + d[idx + range..] && |more| == extra * range
  {
    hide Times;
    var segment, more := d[idx..idx + range], Times(d[idx..idx + range], extra);
    TimesFirst(segment, extra);
    assert d[..idx + range] == d[..idx] + segment;
    assert d[..idx] + (segment + more) == d[..idx + range] + more;
  }

  // ---------------------------------------------------------------- a mutant against its parent's hash

  /** The duplicate filter never takes a bit-flip mutant for its parent: their hashes differ. */
  lemma BitFlipMutantIsNeverADuplicate(d: seq<Byte>, idx: nat, bit: nat)
    requires idx < |d| < 0x8000_0000 && bit < 8
    ensures Murmur3.Hash(Written(d, idx, Flip(d[idx], bit)), 0) != Murmur3.Hash(d, 0)
  {
    FlipsExactlyOneBit(d[idx], bit, bit);
    ChangedByteHash(d, idx, Flip(d[idx], bit));
  }

  /** Nor does a zero byte put in at the end, unless it completes a block: the length is part of the hash. */
  lemma AppendedZeroIsNeverADuplicate(d: seq<Byte>)
    requires |d| < 0x7fff_ffff && |d| % 16 != 15
    ensures Murmur3.Hash(Inserted(d, |d|, 0), 0) != Murmur3.Hash(d, 0)
  {
    hide Murmur3.Hash;
    assert Murmur3.Zeros(1) == [0];
    assert Inserted(d, |d|, 0) == d + Murmur3.Zeros(1);
    Murmur3.TrailingZerosCount(d, 0, 1);
  }

  /** Changing one byte changes the hash exactly when it changes the byte. */
  lemma ChangedByteHash(d: seq<Byte>, idx: nat, b: Byte)
    requires idx < |d| < 0x8000_0000
    ensures Murmur3.Hash(Written(d, idx, b), 0) == Murmur3.Hash(d, 0) <==> b == d[idx]
  {
    hide Murmur3.Hash;
    var w, i := Written(d, idx, b), idx / 16;
    assert w[idx] == b && forall j :: 0 <= j < |d| && j != idx ==> w[j] == d[j];
    assert w == d <==> b == d[idx];
    Murmur3.NoCollision(d, w, 0, i);
  }

  /** Swapping two bytes of one 16-byte block changes the hash exactly when the bytes differ. */
  lemma SwapInBlockHash(d: seq<Byte>, i: nat, j: nat)
    requires i < |d| < 0x8000_0000 && j < |d| && i / 16 == j / 16
    ensures Murmur3.Hash(Swapped(d, i, j), 0) == Murmur3.Hash(d, 0) <==> d[i] == d[j]
  {
    hide Murmur3.Hash;
    var w := Swapped(d, i, j);
    assert w[i] == d[j];
    assert d[i] == d[j] ==> w == d;
    Murmur3.NoCollision(d, w, 0, i / 16);
  }

  // ---------------------------------------------------------------- the mutators

  /** A new individual at `at`, made from source in a slot of its own, holding data; everyone else is as before. */
  twostate predicate Mutant(all: Individuals, at: nat, source: nat, data: seq<Byte>)
    reads all, all.memory
  {
    old(all.Valid()) && all.Valid() && Bred(old(all.Snapshot()), all.Snapshot(), at, source, data)
  }

  ghost predicate Bred(s: Snapshot, s': Snapshot, at: nat, source: nat, data: seq<Byte>) {
    && s'.world == Step(s.world, DeepClone(at, source)) && s'.ids == s.ids[at := 0]
    && SameBytes(s.world.live, s.slots, s'.world.live, s'.slots, {at})
    && at in s'.world.live && Used(s'.slots, s'.world.live[at]) == data
  }

  lemma BredAndEdited(s0: Snapshot, s1: Snapshot, s2: Snapshot, at: nat, source: nat, was: seq<Byte>, data: seq<Byte>)
    requires Bred(s0, s1, at, source, was) && Edited(s1, s2, at)
    requires at in s2.world.live && Used(s2.slots, s2.world.live[at]) == data
    ensures Bred(s0, s2, at, source, data)
  {
    hide Used;
  }

  /** Where a mutator may be applied: the parent has a slot. */
  ghost predicate Ready(all: Individuals, at: nat, source: nat)
    reads all, all.memory
  {
    all.Valid() && at !in all.live && source in all.live && all.live[source] != UNINIT
  }

  /** What a draw below the size can be; a generator asked for a number below 0 answers 0. */
  predicate Drawn(k: nat, size: nat) {
    k < size || (k == 0 && size == 0)
  }

  lemma BornAlone(w: World, at: nat, source: nat)
    requires Inv(w) && at !in w.live && source in w.live && w.live[source] != UNINIT
    ensures Step(w, DeepClone(at, source)).live == w.live[at := w.next]
    ensures w.next != UNINIT && forall a :: a in w.live ==> w.live[a] != w.next
  {
    hide Inv;
    SlotsExist(w);
  }

  method Offspring(all: Individuals, at: nat, source: nat)
    requires Ready(all, at, source)
    modifies all, all.memory
    ensures Mutant(all, at, source, old(all.Data(source))) && all.Alone(at) && all.Data(at) == old(all.Data(source))
    ensures all.Room(at) == if |all.Data(at)| < 1 then 1 else |all.Data(at)|
  {
    hide Inv, Used, SameIn, SameBytes, Step;
    BornAlone(all.State(), at, source);
    all.Clone(at, source, false);
  }

  method FlipBit(all: Individuals, at: nat, source: nat, idx: nat, bit: nat)
    requires Ready(all, at, source) && Drawn(idx, |all.Data(source)|) && bit < 8
    modifies all, all.memory
    ensures var d := old(all.Data(source));
            Mutant(all, at, source, if idx < |d| then Written(d, idx, Flip(d[idx], bit)) else d)
  {
    hide Inv, Bred, Edited, Used, Flip, Written;
    Offspring(all, at, source);
    ghost var s1, d := all.Snapshot(), all.Data(at);
    var x := all.Peek(at, idx);
    all.Poke(at, idx, Flip(x, bit));
    BredAndEdited(old(all.Snapshot()), s1, all.Snapshot(), at, source, d, all.Data(at));
  }

  /** The buffer g starts with head and ends with tail; between them lies room still to be filled. */
  ghost predicate Filling(g: seq<Byte>, head: seq<Byte>, tail: seq<Byte>) {
    |head| + |tail| <= |g| && g[..|head|] == head && g[|g| - |tail|..] == tail
  }

  lemma FillOne(g: seq<Byte>, head: seq<Byte>, tail: seq<Byte>, b: Byte)
    requires Filling(g, head, tail) && |head| + |tail| < |g|
    ensures Filling(Written(g, |head|, b), head + [b], tail)
  {
    var w := Written(g, |head|, b);
    assert w[..|head| + 1] == head + [b];
    assert w[|g| - |tail|..] == g[|g| - |tail|..];
  }

  lemma Filled(g: seq<Byte>, head: seq<Byte>, tail: seq<Byte>)
    requires Filling(g, head, tail) && |head| + |tail| == |g|
    ensures g == head + tail
  {
    assert g == g[..|head|] + g[|head|..];
  }

  lemma FillingStarts(d: seq<Byte>, g: seq<Byte>, start: nat, n: nat)
    requires start <= |d| && Gapped(d, g, start, n)
    ensures Filling(g, d[..start], d[start..]) && |g| == |d| + n
  {
  }

  method InsertByte(all: Individuals, at: nat, source: nat, idx: nat, b: Byte)
    requires Ready(all, at, source) && idx <= |all.Data(source)|
    modifies all, all.memory
    ensures Mutant(all, at, source, Inserted(old(all.Data(source)), idx, b))
  {
    hide Inv, Bred, Edited, Used, Written, Gapped, Filling;
    Offspring(all, at, source);
    ghost var s1, d := all.Snapshot(), all.Data(at);
    all.InsertBytes(at, idx, 1);
    ghost var s2, g := all.Snapshot(), all.Data(at);
    FillingStarts(d, g, idx, 1);
    all.Poke(at, idx, b);
    FillOne(g, d[..idx], d[idx..], b);
    Filled(all.Data(at), d[..idx] + [b], d[idx..]);
    EditedTwice(s1, s2, all.Snapshot(), at);
    BredAndEdited(old(all.Snapshot()), s1, all.Snapshot(), at, source, d, all.Data(at));
  }

  method EraseByte(all: Individuals, at: nat, source: nat, idx: nat)
    requires Ready(all, at, source) && Drawn(idx, |all.Data(source)|)
    modifies all, all.memory
    ensures var d := old(all.Data(source)); Mutant(all, at, source, if |d| < 2 then d else Erased(d, idx))
  {
    hide Inv, Bred, Edited, Used;
    Offspring(all, at, source);
    if all.Length(at) < 2 { return; }
    ghost var s1, d := all.Snapshot(), all.Data(at);
    all.RemoveBytes(at, idx, 1);
    BredAndEdited(old(all.Snapshot()), s1, all.Snapshot(), at, source, d, all.Data(at));
  }

  method ChangeByte(all: Individuals, at: nat, source: nat, idx: nat, b: Byte)
    requires Ready(all, at, source) && Drawn(idx, |all.Data(source)|)
    modifies all, all.memory
    ensures var d := old(all.Data(source)); Mutant(all, at, source, if idx < |d| then Written(d, idx, b) else d)
  {
    hide Inv, Bred, Edited, Used, Written;
    Offspring(all, at, source);
    ghost var s1, d := all.Snapshot(), all.Data(at);
    all.Poke(at, idx, b);
    BredAndEdited(old(all.Snapshot()), s1, all.Snapshot(), at, source, d, all.Data(at));
  }

  lemma WritesSwap(d: seq<Byte>, i: nat, j: nat)
    requires i < |d| && j < |d|
    ensures Written(Written(d, j, d[i]), i, d[j]) == Swapped(d, i, j)
  {
    assert Written(d, j, d[i]) == d[j := d[i]];
  }

  method SwapByte(all: Individuals, at: nat, source: nat, idx1: nat, idx2: nat)
    requires Ready(all, at, source)
    requires |all.Data(source)| >= 2 ==> idx1 < |all.Data(source)| && idx2 < |all.Data(source)| && idx1 != idx2
    modifies all, all.memory
    ensures var d := old(all.Data(source)); Mutant(all, at, source, if |d| < 2 then d else Swapped(d, idx1, idx2))
  {
    hide Inv, Bred, Edited, Used, Written, Swapped;
    Offspring(all, at, source);
    if all.Length(at) < 2 { return; }
    ghost var s1, d := all.Snapshot(), all.Data(at);
    var x1 := all.Peek(at, idx1);
    var x2 := all.Peek(at, idx2);
    all.Poke(at, idx2, x1);
    ghost var s2 := all.Snapshot();
    all.Poke(at, idx1, x2);
    WritesSwap(d, idx1, idx2);
    EditedTwice(s1, s2, all.Snapshot(), at);
    BredAndEdited(old(all.Snapshot()), s1, all.Snapshot(), at, source, d, all.Data(at));
  }

  lemma TimesGrows(head: seq<Byte>, x: Byte, n: nat)
    ensures (head + Times([x], n)) + [x] == head + Times([x], n + 1)
  {
  }

  lemma CopiesInFront(d: seq<Byte>, idx: nat, x: Byte, mul: nat)
    requires idx <= |d| && (idx < |d| ==> x == d[idx]) && (d != [] ==> idx < |d|)
    ensures (d[..idx] + Times([x], mul)) + d[idx..] == if d == [] then Times([x], mul) else Repeated(d, idx, 1, mul + 1)
  {
    if d != [] {
      assert d[idx..idx + 1] == [x] && d[idx..] == [x] + d[idx + 1..];
      TimesGrows(d[..idx], x, mul);
    }
  }

  /** The loop of the byte duplicator: n times x, behind what is there. */
  method WriteCopies(all: Individuals, at: nat, idx: nat, mul: nat, x: Byte, ghost head: seq<Byte>, ghost tail: seq<Byte>)
    requires all.Valid() && all.Alone(at) && all.Room(at) == |all.Data(at)|
    requires Filling(all.Data(at), head, tail) && |head| == idx && idx + mul + |tail| == |all.Data(at)|
    modifies all.memory
    ensures all.OnlyBytes(at) && all.Data(at) == head + Times([x], mul) + tail
  {
    hide Edited, Used, Written, Filling, Times;
    hide Individuals.Valid, Individuals.Snapshot, Individuals.Data, Individuals.Room;
    ghost var s0 := all.Snapshot();
    EditedNot(s0, at);
    TimesZero(head, [x]);
    var j := idx;
    while j < idx + mul
      invariant idx <= j <= idx + mul && all.Valid() && Edited(s0, all.Snapshot(), at)
      invariant all.Room(at) == |all.Data(at)| == old(|all.Data(at)|)
      invariant Filling(all.Data(at), head + Times([x], j - idx), tail)
    {
      ghost var s1 := all.Snapshot();
      FillOne(all.Data(at), head + Times([x], j - idx), tail, x);
      TimesGrows(head, x, j - idx);
      all.Poke(at, j, x);
      EditedTwice(s0, s1, all.Snapshot(), at);
      j := j + 1;
    }
    Filled(all.Data(at), head + Times([x], mul), tail);
  }

  method DuplicateByte(all: Individuals, at: nat, source: nat, idx: nat, mul: nat)
    requires Ready(all, at, source) && Drawn(idx, |all.Data(source)|)
    modifies all, all.memory
    ensures var d := old(all.Data(source));
            if d == [] then exists x :: Mutant(all, at, source, Times([x], mul))
            else Mutant(all, at, source, Repeated(d, idx, 1, mul + 1))
  {
    hide Bred, Edited, Used, Gapped, Filling, Times, Repeated;
    hide Individuals.Valid, Individuals.Snapshot, Individuals.Data, Individuals.Room;
    Offspring(all, at, source);
    ghost var s1, d := all.Snapshot(), all.Data(at);
    var x := all.Peek(at, idx);
    all.InsertBytes(at, idx, mul);
    ghost var s2 := all.Snapshot();
    FillingStarts(d, all.Data(at), idx, mul);
    WriteCopies(all, at, idx, mul, x, d[..idx], d[idx..]);
    CopiesInFront(d, idx, x, mul);
    EditedTwice(s1, s2, all.Snapshot(), at);
    all.SnapshotShows(at);
    BredAndEdited(old(all.Snapshot()), s1, all.Snapshot(), at, source, d, all.Data(at));
    assert d == [] ==> Mutant(all, at, source, Times([x], mul));
  }

  lemma TimesZero(head: seq<Byte>, segment: seq<Byte>)
    ensures head + Times(segment, 0) == head
  {
  }

  lemma SegmentGrows(head: seq<Byte>, segment: seq<Byte>, k: nat)
    requires k < |segment|
    ensures (head + segment[..k]) + [segment[k]] == head + segment[..k + 1]
  {
  }

  lemma SegmentDone(head: seq<Byte>, segment: seq<Byte>, n: nat)
    ensures (head + Times(segment, n)) + segment == head + Times(segment, n + 1)
    ensures segment[..0] == [] && segment[..|segment|] == segment
  {
  }

  lemma FilledAt(g: seq<Byte>, head: seq<Byte>, tail: seq<Byte>, k: nat)
    requires Filling(g, head, tail) && k < |head|
    ensures g[k] == head[k]
  {
    assert g[k] == g[..|head|][k];
  }

  /** The inner loop: one more copy of the segment at idx, behind what is there. */
  method CopySegment(all: Individuals, at: nat, position: nat, idx: nat, range: nat,
                     ghost head: seq<Byte>, ghost tail: seq<Byte>)
    requires all.Valid() && all.Alone(at) && all.Room(at) == |all.Data(at)|
    requires Filling(all.Data(at), head, tail) && |head| == position && idx + range <= position
    requires position + range + |tail| <= |all.Data(at)|
    modifies all.memory
    ensures all.OnlyBytes(at) && all.Room(at) == |all.Data(at)| == old(|all.Data(at)|)
    ensures Filling(all.Data(at), head + head[idx..idx + range], tail)
  {
    hide Edited, Used, Written, Filling;
    hide Individuals.Valid, Individuals.Snapshot, Individuals.Data, Individuals.Room;
    ghost var s0, segment := all.Snapshot(), head[idx..idx + range];
    EditedNot(s0, at);
    SegmentDone(head, segment, 0);
    assert head + segment[..0] == head;
    for n := 0 to range
      invariant all.Valid() && Edited(s0, all.Snapshot(), at)
      invariant all.Room(at) == |all.Data(at)| == old(|all.Data(at)|)
      invariant Filling(all.Data(at), head + segment[..n], tail)
    {
      ghost var s1 := all.Snapshot();
      FilledAt(all.Data(at), head + segment[..n], tail, idx + n);
      var x := all.Peek(at, idx + n);
      assert x == segment[n];
      FillOne(all.Data(at), head + segment[..n], tail, x);
      SegmentGrows(head, segment, n);
      all.Poke(at, position + n, x);
      EditedTwice(s0, s1, all.Snapshot(), at);
    }
  }

  lemma {:induction false} TimesAt(head: seq<Byte>, segment: seq<Byte>, n: nat)
    ensures var h := head + Times(segment, n + 1); h[|head|..|head| + |segment|] == segment
  {
    TimesFirst(segment, n);
    assert head + (segment + Times(segment, n)) == (head + segment) + Times(segment, n);
  }

  lemma TimesShape(d: seq<Byte>, idx: nat, range: nat)
    requires idx + range <= |d|
    ensures d[..idx + range] == d[..idx] + Times(d[idx..idx + range], 1)
  {
    TimesOnce(d[idx..idx + range]);
  }

  lemma Rounds(m: nat, mul: nat, range: nat)
    requires range >= 1
    ensures m < mul ==> m * range + range <= mul * range
    ensures m >= mul ==> m * range >= mul * range
    ensures (m + 1) * range == m * range + range
  {
    Distribute(m, 1, range);
    Subtract(mul, m + 1, range);
    Subtract(m, mul, range);
    if m < mul { Multiple(mul - m - 1, range); } else { Multiple(m - mul, range); }
  }

  method DuplicateBytes(all: Individuals, at: nat, source: nat, range: nat, idx: nat, mul: nat)
    requires Ready(all, at, source) && range >= 1
    requires range < |all.Data(source)| ==> Drawn(idx, |all.Data(source)| - range)
    modifies all, all.memory
    ensures var d := old(all.Data(source));
            Mutant(all, at, source, if range >= |d| then d else Repeated(d, idx, range, mul + 1))
  {
    hide Bred, Edited, Used, Written, Gapped, Filling, Times;
    hide Individuals.Valid, Individuals.Snapshot, Individuals.Data, Individuals.Room;
    Offspring(all, at, source);
    if range >= all.Length(at) { return; }
    ghost var s1, d, live := all.Snapshot(), all.Data(at), all.live;
    ghost var head, segment, tail := d[..idx], d[idx..idx + range], d[idx + range..];
    var total := mul * range;
    all.InsertBytes(at, idx + range, total);
    FillingStarts(d, all.Data(at), idx + range, total);
    TimesShape(d, idx, range);
    var position := idx + range;
    ghost var m := 0;
    while position < idx + range + total
      invariant 0 <= m <= mul && position == idx + range + m * range
      invariant all.live == live && all.Valid() && Edited(s1, all.Snapshot(), at)
      invariant all.Room(at) == |all.Data(at)| == |d| + total
      invariant Filling(all.Data(at), head + Times(segment, m + 1), tail)
      decreases mul - m
    {
      ghost var s2 := all.Snapshot();
      Rounds(m, mul, range);
      TimesAt(head, segment, m);
      CopySegment(all, at, position, idx, range, head + Times(segment, m + 1), tail);
      EditedTwice(s1, s2, all.Snapshot(), at);
      SegmentDone(head, segment, m + 1);
      position := position + range;
      m := m + 1;
    }
    Rounds(m, mul, range);
    Filled(all.Data(at), head + Times(segment, m + 1), tail);
    all.SnapshotShows(at);
    BredAndEdited(old(all.Snapshot()), s1, all.Snapshot(), at, source, d, all.Data(at));
  }
}
