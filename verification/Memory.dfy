/** The slot allocator (fuzzer/memory-manager.cpp): numbered buffers with reference counts. A buffer is its
    allocated bytes; the length may be smaller. A null buffer is the empty sequence. */
module Memory {
  import opened Words

  const UNINIT := 0

  // ---------------------------------------------------------------- reference counts, as a value

  function Increased(refs: map<nat, nat>, i: nat): map<nat, nat> {
    if i in refs then refs[i := refs[i] + 1] else refs
  }

  function Decreased(refs: map<nat, nat>, i: nat): map<nat, nat> {
    if i !in refs then refs else if refs[i] <= 1 then refs - {i} else refs[i := refs[i] - 1]
  }

  /** Only the active slots, with the counts they had. */
  function Cleaned(refs: map<nat, nat>, active: set<nat>): map<nat, nat> {
    map i | i in refs && i in active :: refs[i]
  }

  /** The slot that a copy of source uses. */
  function CopyIndex(next: nat, source: nat, shallow: bool): nat {
    if source == UNINIT || source >= next then UNINIT else if shallow then source else next
  }

  function Written(bytes: seq<Byte>, at: nat, b: Byte): (r: seq<Byte>)
    requires at < |bytes|
    ensures |r| == |bytes|
  {
    bytes[..at] + [b] + bytes[at + 1..]
  }

  lemma WrittenInFront(bytes: seq<Byte>, n: nat, at: nat, b: Byte)
    requires at < n <= |bytes|
    ensures Written(bytes, at, b)[..n] == Written(bytes[..n], at, b)
  {
    assert bytes[..n][..at] == bytes[..at];
    assert bytes[..n][at + 1..] == bytes[at + 1..n];
  }

  /** memmove: the bytes from start on move n places up, inside a buffer that has room for them. */
  function Opened(bytes: seq<Byte>, start: nat, n: nat): (r: seq<Byte>)
    requires start + n <= |bytes|
    ensures |r| == |bytes| && r[..start] == bytes[..start] && r[start + n..] == bytes[start..|bytes| - n]
  {
    bytes[..start + n] + bytes[start..|bytes| - n]
  }

  /** A gap of n bytes opens at start, or at the end when start lies past it; nothing else moves. */
  predicate Gapped(before: seq<Byte>, after: seq<Byte>, start: nat, n: nat) {
    var p := if start < |before| then start else |before|;
    |after| == |before| + n && after[..p] == before[..p] && after[p + n..] == before[p..]
  }

  lemma GapOpens(before: seq<Byte>, bytes: seq<Byte>, start: nat, n: nat)
    requires |bytes| == |before| + n && before <= bytes
    ensures Gapped(before, if start < |before| then Opened(bytes, start, n) else bytes, start, n)
  {
    assert bytes[..|before|] == before;
    if start < |before| { assert bytes[start..|before|] == before[start..]; }
  }

  datatype Slot = Slot(buffer: seq<Byte>, length: nat)

  function Used(slots: map<nat, Slot>, i: nat): seq<Byte> {
    if i in slots && slots[i].length <= |slots[i].buffer| then slots[i].buffer[..slots[i].length] else []
  }

  /** The two maps hold the same under these slots. */
  ghost predicate SameIn<T>(slots: set<nat>, was: map<nat, T>, now: map<nat, T>) {
    forall i :: i in slots ==> i in was && i in now && now[i] == was[i]
  }

  lemma SameSelf<T>(slots: set<nat>, m: map<nat, T>)
    requires slots == m.Keys
    ensures SameIn(slots, m, m)
  {
  }

  lemma SameThrough<T>(slots: set<nat>, m0: map<nat, T>, m1: map<nat, T>, m2: map<nat, T>)
    requires SameIn(slots, m0, m1) && SameIn(m1.Keys * slots, m1, m2)
    ensures SameIn(slots, m0, m2)
  {
  }

  lemma SameAfter<T>(slots: set<nat>, m0: map<nat, T>, m1: map<nat, T>, m2: map<nat, T>, i: nat)
    requires SameIn(slots, m0, m1) && SameIn(m1.Keys - {i}, m1, m2)
    ensures SameIn(slots - {i}, m0, m2)
  {
  }

  /** Taking out what is not active, one by one or all at once. */
  lemma Filtered(was: map<nat, nat>, active: set<nat>)
    ensures was - (set i | i in was && i !in active) == Cleaned(was, active)
  {
  }

  lemma OneMoreOut(was: map<nat, nat>, all: set<nat>, rest: set<nat>, i: nat)
    requires i in rest && rest <= all
    ensures was - (all - rest) - {i} == was - (all - (rest - {i}))
  {
  }

  /** A buffer with whatever the allocator left in it. */
  method Allocate(size: nat) returns (bytes: seq<Byte>)
    ensures |bytes| == size
  {
    bytes := *;
    if |bytes| != size { bytes := seq(size, _ => 0); }
  }

  class MemoryManager {
    var nextIndex: nat
    var refs: map<nat, nat>
    var memory: map<nat, seq<Byte>>
    var lengths: map<nat, nat>

    /** The three maps have the same slots, all numbered below the next index, counted at least once. */
    ghost predicate Valid()
      reads this
    {
      && nextIndex > UNINIT
      && refs.Keys == memory.Keys == lengths.Keys
      && EachOk()
    }

    ghost predicate EachOk()
      requires refs.Keys == memory.Keys == lengths.Keys
      reads this
    {
      forall i :: i in refs ==> UNINIT < i < nextIndex && refs[i] >= 1 && lengths[i] <= |memory[i]|
    }

    /** The bytes of a slot; a slot that does not exist has none. */
    function Bytes(i: nat): seq<Byte>
      requires Valid()
      reads this
    {
      if i in memory then memory[i][..lengths[i]] else []
    }

    lemma BytesAreUsed(i: nat)
      requires Valid()
      ensures Bytes(i) == Used(Slots(), i)
    {
    }

    /** What is stored, as a value. */
    ghost function Slots(): (r: map<nat, Slot>)
      requires memory.Keys == lengths.Keys
      reads this`memory, this`lengths
      ensures r.Keys == memory.Keys
    {
      map i | i in memory :: Slot(memory[i], lengths[i])
    }

    /** No other slot changes. */
    twostate predicate OthersKept(i: nat)
      requires old(memory.Keys) == old(lengths.Keys) && memory.Keys == lengths.Keys
      reads this`memory, this`lengths
    {
      SameIn(old(Slots()).Keys - {i}, old(Slots()), Slots())
    }

    constructor ()
      ensures Valid() && refs == map[] && nextIndex == UNINIT + 1
    {
      nextIndex, refs, memory, lengths := UNINIT + 1, map[], map[], map[];
    }

    function Length(i: nat): nat
      requires Valid()
      reads this
      ensures Length(i) == |Bytes(i)|
    {
      if i == UNINIT || i >= nextIndex then 0 else if i in lengths then lengths[i] else 0
    }

    ghost predicate CreatedFor(i: nat, size: nat)
      reads this`memory, this`lengths
    {
      i in memory && i in lengths && lengths[i] == size && |memory[i]| == if size < 1 then 1 else size
    }

    method Create(size: nat) returns (index: nat)
      requires Valid()
      modifies this
      ensures Valid() && index == old(nextIndex) && nextIndex == old(nextIndex) + 1
      ensures refs == old(refs)[index := 1] && index !in old(refs)
      ensures CreatedFor(index, size) && SameIn(old(Slots()).Keys, old(Slots()), Slots())
    {
      index := nextIndex;
      nextIndex := nextIndex + 1;
      var buffer := Allocate(if size < 1 then 1 else size);
      refs := refs[index := 1];
      lengths := lengths[index := size];
      memory := memory[index := buffer];
    }

    /** create, then memcpy. */
    method CreateWith(data: seq<Byte>) returns (index: nat)
      requires Valid()
      modifies this
      ensures Valid() && index == old(nextIndex) && nextIndex == old(nextIndex) + 1
      ensures refs == old(refs)[index := 1] && index !in old(refs)
      ensures CreatedFor(index, |data|) && Bytes(index) == data && Used(Slots(), index) == data
      ensures SameIn(old(Slots()).Keys, old(Slots()), Slots())
    {
      index := Create(|data|);
      memory := memory[index := data + memory[index][|data|..]];
    }

    method Dismiss(i: nat)
      requires Valid()
      modifies this
      ensures Valid() && nextIndex == old(nextIndex) && refs == old(refs) - {i} && OthersKept(i)
    {
      if i == UNINIT || i !in memory { return; }
      memory := memory - {i};
      lengths := lengths - {i};
      refs := refs - {i};
    }

    method IncreaseCount(i: nat)
      requires Valid()
      modifies this`refs
      ensures Valid() && refs == Increased(old(refs), i)
    {
      if i == UNINIT || i >= nextIndex || i !in refs { return; }
      refs := refs[i := refs[i] + 1];
    }

    method DecreaseCount(i: nat)
      requires Valid()
      modifies this
      ensures Valid() && nextIndex == old(nextIndex) && refs == Decreased(old(refs), i)
      ensures SameIn(old(Slots()).Keys * Slots().Keys, old(Slots()), Slots())
    {
      if i == UNINIT || i >= nextIndex || i !in refs { return; }
      if refs[i] - 1 < 1 {
        Dismiss(i);
      } else {
        refs := refs[i := refs[i] - 1];
      }
    }

    method Copy(source: nat, shallow: bool) returns (index: nat)
      requires Valid()
      modifies this
      ensures Valid() && SameIn(old(Slots()).Keys, old(Slots()), Slots())
      ensures index == CopyIndex(old(nextIndex), source, shallow)
      ensures nextIndex == (if index == old(nextIndex) then old(nextIndex) + 1 else old(nextIndex))
      ensures refs == if index == old(nextIndex) then old(refs)[index := 1] else Increased(old(refs), index)
      ensures Used(Slots(), index) == Used(old(Slots()), source)
      ensures index == old(nextIndex) ==> CreatedFor(index, |Used(Slots(), index)|)
    {
      if source == UNINIT || source >= nextIndex { return UNINIT; }
      if shallow {
        IncreaseCount(source);
        return source;
      }
      index := CreateWith(Bytes(source));
    }

    /** memmove within a buffer: its bytes change in place. */
    method Fill(i: nat, bytes: seq<Byte>)
      requires Valid() && i in memory && |bytes| == |memory[i]|
      modifies this`memory
      ensures Valid() && memory == old(memory)[i := bytes] && OthersKept(i)
      ensures lengths[i] == |bytes| ==> Used(Slots(), i) == bytes
    {
      memory := memory[i := bytes];
    }

    /** The new buffer keeps the old bytes in front; what follows is whatever was allocated. */
    method ResizeBuffer(i: nat, size: nat) returns (ok: bool)
      requires Valid() && (i in refs && size > 0 ==> size >= lengths[i])
      modifies this`memory, this`lengths
      ensures Valid() && ok == (i in refs) && OthersKept(i) && memory.Keys == old(memory.Keys)
      ensures ok ==> lengths[i] == |memory[i]| == size && (size > 0 ==> Used(old(Slots()), i) <= memory[i])
      ensures ok ==> Used(Slots(), i) == memory[i]
    {
      if i == UNINIT || i >= nextIndex || i !in memory { return false; }
      if size > 0 {
        var buffer := Allocate(size);
        memory := memory[i := memory[i][..lengths[i]] + buffer[lengths[i]..]];
      } else {
        memory := memory[i := []];
      }
      lengths := lengths[i := size];
      ok := true;
    }

    /** Opens a gap of n bytes; past the end it only makes the buffer longer. */
    method InsertBytes(i: nat, start: nat, n: nat) returns (ok: bool)
      requires Valid()
      modifies this`memory, this`lengths
      ensures Valid() && ok == (i in refs) && OthersKept(i)
      ensures ok ==> Gapped(Used(old(Slots()), i), Used(Slots(), i), start, n) && |Used(Slots(), i)| == |memory[i]|
    {
      if i == UNINIT || i >= nextIndex { return false; }
      hide SameIn, Slots, Gapped, Opened, Used;
      var length := Length(i);
      BytesAreUsed(i);
      ghost var s0 := Slots();
      ok := ResizeBuffer(i, length + n);
      if !ok { return; }
      GapOpens(Used(s0, i), memory[i], start, n);
      if start < length {
        ghost var s1 := Slots();
        Fill(i, Opened(memory[i], start, n));
        SameThrough(s0.Keys - {i}, s0, s1, Slots());
      }
    }

    /** Closes a gap; the byte behind the new end becomes 0. */
    method RemoveBytes(i: nat, start: nat, n: nat) returns (ok: bool)
      requires Valid() && (i in refs || i == UNINIT || i >= nextIndex)
      requires i in refs ==> start + n <= lengths[i] && lengths[i] - n < |memory[i]|
      modifies this`memory, this`lengths
      ensures Valid() && ok == (i in refs) && OthersKept(i)
      ensures ok ==> var before := Used(old(Slots()), i);
                     start + n <= |before| && Used(Slots(), i) == before[..start] + before[start + n..]
      ensures ok ==> |memory[i]| == |old(memory)[i]| && memory[i][lengths[i]] == 0
    {
      if i == UNINIT || i >= nextIndex { return false; }
      var length := Length(i);
      var b := memory[i];
      // memmove
      b := b[..start] + b[start + n..length] + b[length - n..];
      lengths := lengths[i := length - n];
      b := Written(b, length - n, 0);
      memory := memory[i := b];
      ok := true;
    }

    /** One byte through the pointer of a slot, inside what is allocated. */
    method Write(i: nat, at: nat, b: Byte)
      requires Valid() && i in memory && at < |memory[i]|
      modifies this`memory
      ensures Valid() && memory == old(memory)[i := Written(old(memory)[i], at, b)] && OthersKept(i)
      ensures var before := Used(old(Slots()), i);
              Used(Slots(), i) == if at < |before| then Written(before, at, b) else before
    {
      if at < lengths[i] { WrittenInFront(memory[i], lengths[i], at, b); }
      memory := memory[i := Written(memory[i], at, b)];
    }

    /** One of several dismissals: the slots that remain are still as they were in s0. */
    method DismissNext(i: nat, ghost s0: map<nat, Slot>)
      requires Valid() && SameIn(refs.Keys, s0, Slots())
      modifies this
      ensures Valid() && nextIndex == old(nextIndex) && refs == old(refs) - {i}
      ensures SameIn(refs.Keys, s0, Slots())
    {
      hide SameIn;
      Dismiss(i);
      SameAfter(old(refs.Keys), s0, old(Slots()), Slots(), i);
      assert refs.Keys == old(refs.Keys) - {i};
    }

    /** Dismisses every slot that is not active. */
    method ForceClean(active: set<nat>)
      requires Valid()
      modifies this
      ensures Valid() && nextIndex == old(nextIndex)
      ensures refs == Cleaned(old(refs), active)
      ensures SameIn(refs.Keys, old(Slots()), Slots())
    {
      var inactive := set i | i in refs && i !in active;
      SameSelf(refs.Keys, Slots());
      ghost var all := inactive;
      while inactive != {}
        invariant Valid() && nextIndex == old(nextIndex) && inactive <= all
        invariant refs == old(refs) - (all - inactive)
        invariant SameIn(refs.Keys, old(Slots()), Slots())
        decreases inactive
      {
        var i :| i in inactive;
        DismissNext(i, old(Slots()));
        OneMoreOut(old(refs), all, inactive, i);
        inactive := inactive - {i};
      }
      Filtered(old(refs), active);
    }
  }
}
