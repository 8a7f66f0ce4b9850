/** Handles on slots (Individual in fuzzer/evolution.cpp) and the clean-up at the end of each generation.
    Counting is loose: assignment and deep cloning count a slot up without ever counting the old one down. */
module Handles {
  import opened Memory
  import opened Prelude
  import opened Words

  // ---------------------------------------------------------------- the counts, as a state

  /** The next slot, the count of each slot, and the slot of each live handle (by its address). */
  datatype World = World(next: nat, refs: map<nat, nat>, live: map<nat, nat>)

  datatype Op =
    | New(at: nat)                              // an individual without a slot
    | Fill(at: nat)                             // set
    | CopyTo(at: nat, source: nat)              // copy constructor; also clone with keep_id
    | Assign(at: nat, source: nat)              // operator=
    | DeepClone(at: nat, source: nat)           // clone
    | Destroy(at: nat)                          // destructor
    | Clean(kept: set<nat>)                     // force_clean, with the handles the population holds

  function Holders(live: map<nat, nat>, slot: nat): set<nat> {
    set a | a in live && live[a] == slot
  }

  function SlotsOf(live: map<nat, nat>, handles: set<nat>): set<nat> {
    set a | a in handles && a in live :: live[a]
  }

  /** The C++ program's own discipline: objects are constructed once, used while alive, and at a clean-up every
      live handle shares its slot with one the population holds (or has none). */
  ghost predicate Enabled(w: World, op: Op) {
    match op
    case New(at) => at !in w.live
    case Fill(at) => at in w.live
    case CopyTo(at, source) => at !in w.live && source in w.live
    case Assign(at, source) => at in w.live && source in w.live
    case DeepClone(at, source) => at !in w.live && source in w.live
    case Destroy(at) => at in w.live
    case Clean(kept) =>
      && kept <= w.live.Keys
      && forall a :: a in w.live ==> w.live[a] == UNINIT || w.live[a] in SlotsOf(w.live, kept)
  }

  function Step(w: World, op: Op): World {
    match op
    case New(at) => w.(live := w.live[at := UNINIT])
    case Fill(at) => World(w.next + 1, w.refs[w.next := 1], w.live[at := w.next])
    case CopyTo(at, source) =>
      if source !in w.live then w else
      World(w.next, Increased(w.refs, w.live[source]), w.live[at := w.live[source]])
    case Assign(at, source) =>
      if source !in w.live || at == source then w else
      World(w.next, Increased(w.refs, w.live[source]), w.live[at := w.live[source]])
    case DeepClone(at, source) =>
      if source !in w.live then w else
      var slot := w.live[source];
      if slot == UNINIT || slot >= w.next then World(w.next, w.refs, w.live[at := UNINIT])
      else World(w.next + 1, Increased(w.refs, slot)[w.next := 1], w.live[at := w.next])
    case Destroy(at) =>
      if at !in w.live then w else World(w.next, Decreased(w.refs, w.live[at]), w.live - {at})
    case Clean(kept) =>
      w.(refs := Cleaned(w.refs, SlotsOf(w.live, kept)))
  }

  ghost predicate Allowed(w: World, ops: seq<Op>)
    decreases ops
  {
    ops == [] || (Enabled(w, ops[0]) && Allowed(Step(w, ops[0]), ops[1..]))
  }

  function Run(w: World, ops: seq<Op>): World
    decreases ops
  {
    if ops == [] then w else Run(Step(w, ops[0]), ops[1..])
  }

  /** Slots are numbered below the next one; a live handle's slot exists and is counted at least once per holder. */
  ghost predicate Inv(w: World) {
    && w.next > UNINIT
    && (forall i :: i in w.refs ==> UNINIT < i < w.next)
    && (forall a :: a in w.live ==> w.live[a] == UNINIT || w.live[a] in w.refs)
    && (forall i :: i in w.refs ==> Counted(w, i))
  }

  ghost predicate Counted(w: World, i: nat)
    requires i in w.refs
  {
    w.refs[i] >= 1 && w.refs[i] >= |Holders(w.live, i)|
  }

  // ---------------------------------------------------------------- counting holders

  lemma HoldersAfterBinding(live: map<nat, nat>, at: nat, slot: nat, i: nat)
    ensures |Holders(live[at := slot], i)| ==
            |Holders(live, i)| + (if i == slot then 1 else 0) - (if at in live && live[at] == i then 1 else 0)
  {
    var before, after := Holders(live, i), Holders(live[at := slot], i);
    if i == slot { assert after == before + {at}; } else { assert after == before - {at}; }
  }

  lemma HoldersAfterDestroying(live: map<nat, nat>, at: nat, i: nat)
    requires at in live
    ensures |Holders(live - {at}, i)| == |Holders(live, i)| - (if live[at] == i then 1 else 0)
  {
    assert Holders(live - {at}, i) == Holders(live, i) - {at};
  }

  lemma Held(live: map<nat, nat>, at: nat)
    requires at in live
    ensures |Holders(live, live[at])| >= 1
  {
    assert at in Holders(live, live[at]);
  }

  // ---------------------------------------------------------------- the invariant

  lemma InvBinding(w: World, refs: map<nat, nat>, next: nat, at: nat, slot: nat)
    requires Inv(w) && next >= w.next
    requires refs.Keys == w.refs.Keys + (if slot == UNINIT then {} else {slot})
    requires forall i :: i in refs ==> i < next
    requires forall i :: i in w.refs ==> refs[i] >= w.refs[i] + (if i == slot then 1 else 0)
    requires slot != UNINIT ==> refs[slot] >= 1
    ensures Inv(World(next, refs, w.live[at := slot]))
  {
    var w' := World(next, refs, w.live[at := slot]);
    forall i | i in refs ensures Counted(w', i) {
      if i in w.refs { assert Counted(w, i); }
      CountedAfterBinding(w.live, if i in w.refs then w.refs[i] else 0, refs[i], at, slot, i);
    }
  }

  lemma CountedAfterBinding(live: map<nat, nat>, count: nat, count': nat, at: nat, slot: nat, i: nat)
    requires count >= |Holders(live, i)| || (count == 0 && i !in live.Values)
    requires count' >= count + (if i == slot then 1 else 0)
    ensures count' >= |Holders(live[at := slot], i)|
  {
    HoldersAfterBinding(live, at, slot, i);
    if i !in live.Values { assert Holders(live, i) == {}; }
  }

  lemma InvStep(w: World, op: Op)
    requires Inv(w) && Enabled(w, op)
    ensures Inv(Step(w, op)) && Step(w, op).next >= w.next
  {
    match op
    case New(at) => InvBinding(w, w.refs, w.next, at, UNINIT);
    case Fill(at) => InvBinding(w, w.refs[w.next := 1], w.next + 1, at, w.next);
    case CopyTo(at, source) => InvBinding(w, Increased(w.refs, w.live[source]), w.next, at, w.live[source]);
    case Assign(at, source) =>
      if at != source { InvBinding(w, Increased(w.refs, w.live[source]), w.next, at, w.live[source]); }
    case DeepClone(at, source) =>
      if w.live[source] == UNINIT {
        InvBinding(w, w.refs, w.next, at, UNINIT);
      } else {
        InvBinding(w, Increased(w.refs, w.live[source])[w.next := 1], w.next + 1, at, w.next);
      }
    case Destroy(at) => InvDestroy(w, at);
    case Clean(kept) => InvClean(w, kept);
  }

  lemma InvClean(w: World, kept: set<nat>)
    requires Inv(w) && Enabled(w, Clean(kept))
    ensures Inv(Step(w, Clean(kept)))
  {
    var w' := Step(w, Clean(kept));
    forall i | i in w'.refs ensures Counted(w', i) { assert Counted(w, i); }
  }

  lemma InvDestroy(w: World, at: nat)
    requires Inv(w) && at in w.live
    ensures Inv(Step(w, Destroy(at)))
  {
    var w', slot := Step(w, Destroy(at)), w.live[at];
    forall i | i in w'.refs ensures Counted(w', i) {
      assert Counted(w, i);
      HoldersAfterDestroying(w.live, at, i);
    }
    forall a | a in w'.live ensures w'.live[a] == UNINIT || w'.live[a] in w'.refs {
      if w.live[a] == slot && slot != UNINIT {
        assert Counted(w, slot);
        HoldersAfterDestroying(w.live, at, slot);
        Held(w'.live, a);
      }
    }
  }

  // ---------------------------------------------------------------- whole runs

  const START := World(UNINIT + 1, map[], map[])

  lemma {:induction false} InvRun(w: World, ops: seq<Op>)
    requires Inv(w) && Allowed(w, ops)
    ensures Inv(Run(w, ops)) && Run(w, ops).next >= w.next
    decreases ops
  {
    if ops != [] {
      InvStep(w, ops[0]);
      InvRun(Step(w, ops[0]), ops[1..]);
    }
  }

  /** Whatever is created, set, copied, assigned, cloned, destroyed and cleaned, in any order: the slot of a live
      handle has not been dismissed, and its count is at least the number of handles on it. */
  lemma LiveHandlesAreSafe(ops: seq<Op>, a: nat)
    requires Allowed(START, ops) && a in Run(START, ops).live && Run(START, ops).live[a] != UNINIT
    ensures var w := Run(START, ops); w.live[a] in w.refs && w.refs[w.live[a]] >= |Holders(w.live, w.live[a])| >= 1
  {
    InvRun(START, ops);
    var w := Run(START, ops);
    assert Counted(w, w.live[a]);
    Held(w.live, a);
  }

  /** A slot number that has been used and dismissed never comes back. */
  lemma {:induction false} NeverReused(w: World, ops: seq<Op>, i: nat)
    requires Inv(w) && Allowed(w, ops) && i < w.next && i !in w.refs
    ensures i !in Run(w, ops).refs
    decreases ops
  {
    if ops != [] {
      InvStep(w, ops[0]);
      assert i !in Step(w, ops[0]).refs;
      NeverReused(Step(w, ops[0]), ops[1..], i);
    }
  }

  /** After the clean-up of a generation the slots are those of the population's handles, no more and no fewer. */
  lemma CleanLeavesExactlyTheActive(ops: seq<Op>, kept: set<nat>)
    requires Allowed(START, ops) && kept <= Run(START, ops).live.Keys
    ensures var w := Run(START, ops); Step(w, Clean(kept)).refs.Keys == SlotsOf(w.live, kept) - {UNINIT}
  {
    InvRun(START, ops);
  }

  /** That discipline is exactly what the clean-up needs: any other set of active slots would leave a live handle
      without its slot. */
  lemma CleanIsSafeExactly(w: World, kept: set<nat>)
    requires Inv(w) && kept <= w.live.Keys
    ensures Inv(Step(w, Clean(kept))) <==> Enabled(w, Clean(kept))
  {
    if Enabled(w, Clean(kept)) { InvStep(w, Clean(kept)); }
  }

  // ---------------------------------------------------------------- over-counting

  /** How far a slot's count lies above the number of its handles. */
  function Excess(w: World, i: nat): int {
    if i in w.refs then w.refs[i] - |Holders(w.live, i)| else 0
  }

  /** The operations that leave a slot with one count too many: its number is overwritten, or it is cloned deep. */
  predicate Leaks(w: World, op: Op, i: nat) {
    match op
    case Fill(at) => at in w.live && w.live[at] == i
    case Assign(at, source) => at != source && at in w.live && w.live[at] == i
    case DeepClone(_, source) => source in w.live && w.live[source] == i
    case _ => false
  }

  lemma ExcessBinding(w: World, next: nat, refs: map<nat, nat>, at: nat, slot: nat, i: nat)
    requires i in w.refs && i in refs
    ensures Excess(World(next, refs, w.live[at := slot]), i) ==
            Excess(w, i) + refs[i] - w.refs[i] - (if i == slot then 1 else 0) + (if at in w.live && w.live[at] == i then 1 else 0)
  {
    HoldersAfterBinding(w.live, at, slot, i);
  }

  /** The account of over-counting, exact: between clean-ups the excess of a slot that stays grows by one with each
      operation that leaks it, and changes with no other. */
  lemma ExcessExactly(w: World, op: Op, i: nat)
    requires Inv(w) && Enabled(w, op) && !op.Clean? && i in w.refs && i in Step(w, op).refs
    ensures Excess(Step(w, op), i) == Excess(w, i) + if Leaks(w, op, i) then 1 else 0
  {
    match op
    case New(at) => ExcessBinding(w, w.next, w.refs, at, UNINIT, i);
    case Fill(at) => ExcessBinding(w, w.next + 1, w.refs[w.next := 1], at, w.next, i);
    case CopyTo(at, source) =>
      ExcessBinding(w, w.next, Increased(w.refs, w.live[source]), at, w.live[source], i);
    case Assign(at, source) =>
      if at != source { ExcessBinding(w, w.next, Increased(w.refs, w.live[source]), at, w.live[source], i); }
    case DeepClone(at, source) =>
      if w.live[source] == UNINIT {
        ExcessBinding(w, w.next, w.refs, at, UNINIT, i);
      } else {
        ExcessBinding(w, w.next + 1, Increased(w.refs, w.live[source])[w.next := 1], at, w.next, i);
      }
    case Destroy(at) => HoldersAfterDestroying(w.live, at, i);
  }

  lemma OverCountedStays(w: World, op: Op, i: nat)
    requires Inv(w) && Enabled(w, op) && !op.Clean? && i in w.refs && Excess(w, i) >= 1
    ensures i in Step(w, op).refs
  {
    if op.Destroy? { Held(w.live, op.at); }
  }

  /** How often a run leaks a slot. */
  function LeakCount(w: World, ops: seq<Op>, i: nat): nat
    decreases ops
  {
    if ops == [] then 0 else (if Leaks(w, ops[0], i) then 1 else 0) + LeakCount(Step(w, ops[0]), ops[1..], i)
  }

  /** Without a clean-up, an over-counted slot is never given back, not even when its last handle goes; its excess is
      what it was and the number of leaks since. */
  lemma {:induction false} OverCountedSlotsStay(w: World, ops: seq<Op>, i: nat)
    requires Inv(w) && Allowed(w, ops) && (forall op :: op in ops ==> !op.Clean?)
    requires i in w.refs && Excess(w, i) >= 1
    ensures i in Run(w, ops).refs && Excess(Run(w, ops), i) == Excess(w, i) + LeakCount(w, ops, i)
    decreases ops
  {
    if ops != [] {
      InvStep(w, ops[0]);
      OverCountedStays(w, ops[0], i);
      ExcessExactly(w, ops[0], i);
      OverCountedSlotsStay(Step(w, ops[0]), ops[1..], i);
    }
  }

  /** Destroying the last handle of a slot gives the slot back exactly when it was not over-counted. */
  lemma LastHandleFreesExactly(w: World, at: nat)
    requires Inv(w) && at in w.live && w.live[at] != UNINIT && Holders(w.live, w.live[at]) == {at}
    ensures w.live[at] !in Step(w, Destroy(at)).refs <==> Excess(w, w.live[at]) == 0
  {
    assert Counted(w, w.live[at]);
  }

  /** Assigning to the only handle of a slot over-counts that slot: it has no handle left and keeps its count. */
  lemma AssignmentLeaks(w: World, at: nat, source: nat)
    requires Inv(w) && at in w.live && source in w.live && w.live[at] != w.live[source]
    requires w.live[at] != UNINIT && Holders(w.live, w.live[at]) == {at}
    ensures var w', slot := Step(w, Assign(at, source)), w.live[at];
            slot in w'.refs && Holders(w'.live, slot) == {} && Excess(w', slot) >= 1
  {
    HoldersAfterBinding(w.live, at, w.live[source], w.live[at]);
    assert Counted(w, w.live[at]);
  }

  /** Cloning deep over-counts the slot it copies from. */
  lemma CloneOverCounts(w: World, at: nat, source: nat)
    requires Inv(w) && at !in w.live && source in w.live && w.live[source] != UNINIT
    ensures Excess(Step(w, DeepClone(at, source)), w.live[source]) == Excess(w, w.live[source]) + 1
  {
    HoldersAfterBinding(w.live, at, w.next, w.live[source]);
    assert at !in Holders(w.live, w.live[source]);
  }

  /** A change that keeps every slot that exists before and after, and the bindings outside changed, keeps the bytes of
      all other individuals. */
  lemma BytesStay(w: World, s: map<nat, Slot>, w': World, s': map<nat, Slot>, changed: set<nat>)
    requires Inv(w) && s.Keys == w.refs.Keys && Inv(w') && s'.Keys == w'.refs.Keys
    requires SameIn(s.Keys * s'.Keys, s, s') && Rebound(w.live, w'.live, changed)
    ensures SameBytes(w.live, s, w'.live, s', changed)
  {
  }

  lemma BytesStayCleaned(w: World, s: map<nat, Slot>, kept: set<nat>, s': map<nat, Slot>)
    requires Inv(w) && s.Keys == w.refs.Keys && Enabled(w, Clean(kept))
    requires s'.Keys == Step(w, Clean(kept)).refs.Keys && SameIn(s'.Keys, s, s')
    ensures forall a :: a in w.live ==> Used(s', w.live[a]) == Used(s, w.live[a])
  {
  }

  /** A change in a slot that only one individual uses keeps the bytes of all others. */
  lemma OneSlot(w: World, s: map<nat, Slot>, s': map<nat, Slot>, at: nat)
    requires Inv(w) && s.Keys == w.refs.Keys && at in w.live
    requires forall a :: a in w.live && a != at ==> w.live[a] != w.live[at]
    requires SameIn(s.Keys - {w.live[at]}, s, s') && s'.Keys == s.Keys
    ensures SameBytes(w.live, s, w.live, s', {at}) && Inv(w)
  {
  }

  /** Every individual outside changed keeps its slot, and the slot its bytes. */
  ghost predicate SameBytes(live: map<nat, nat>, s: map<nat, Slot>, live': map<nat, nat>, s': map<nat, Slot>,
                            changed: set<nat>)
  {
    forall a :: a in live && a !in changed ==> a in live' && live'[a] == live[a] && Used(s', live[a]) == Used(s, live[a])
  }

  ghost predicate Rebound(live: map<nat, nat>, live': map<nat, nat>, changed: set<nat>) {
    forall a :: a in live && a !in changed ==> a in live' && live'[a] == live[a]
  }

  function Detached(w: World, at: nat): World
    requires at in w.live
  {
    if w.live[at] == UNINIT then w else World(w.next + 1, w.refs[w.next := 1], w.live[at := w.next])
  }

  lemma CloneIsCopyAndDetach(w: World, at: nat, source: nat)
    requires Inv(w) && at !in w.live && source in w.live
    ensures at in Step(w, CopyTo(at, source)).live
    ensures Detached(Step(w, CopyTo(at, source)), at) == Step(w, DeepClone(at, source))
  {
    var slot := w.live[source];
    assert w.live[at := slot][at := w.next] == w.live[at := w.next];
  }

  lemma InvDetached(w: World, at: nat)
    requires Inv(w) && at in w.live
    ensures Inv(Detached(w, at))
  {
    if w.live[at] != UNINIT { InvBinding(w, w.refs[w.next := 1], w.next + 1, at, w.next); }
  }

  lemma SlotsExist(w: World)
    requires Inv(w)
    ensures forall a :: a in w.live ==> w.live[a] == UNINIT || (w.live[a] in w.refs && w.live[a] < w.next)
    ensures w.next !in w.refs && UNINIT !in w.refs
  {
  }

  // ---------------------------------------------------------------- the individuals themselves

  /** All there is to see of the individuals at one time. */
  datatype Snapshot = Snap(world: World, slots: map<nat, Slot>, ids: map<nat, nat>)

  ghost predicate Edited(s: Snapshot, s': Snapshot, at: nat) {
    s'.world == s.world && s'.ids == s.ids && SameBytes(s.world.live, s.slots, s.world.live, s'.slots, {at})
  }

  lemma EditedNot(s: Snapshot, at: nat)
    ensures Edited(s, s, at)
  {
  }

  lemma EditedTwice(s0: Snapshot, s1: Snapshot, s2: Snapshot, at: nat)
    requires Edited(s0, s1, at) && Edited(s1, s2, at)
    ensures Edited(s0, s2, at)
  {
  }

  /** All individuals over one memory manager: the slot and the testcase id of each, by address. */
  class Individuals {
    const memory: MemoryManager
    var live: map<nat, nat>
    var ids: map<nat, nat>

    ghost function State(): World
      reads this, memory
    {
      World(memory.nextIndex, memory.refs, live)
    }

    ghost predicate Valid()
      reads this, memory
    {
      memory.Valid() && Inv(State()) && ids.Keys == live.Keys
    }

    ghost function Data(a: nat): seq<Byte>
      requires Valid() && a in live
      reads this, memory
    {
      Used(memory.Slots(), live[a])
    }

    /** Every other individual keeps its slot, its id and its bytes. */
    twostate predicate OthersKept(at: nat)
      requires old(Valid()) && Valid()
      reads this, memory
    {
      SameBytes(old(live), old(memory.Slots()), live, memory.Slots(), {at}) && Rebound(old(ids), ids, {at})
    }

    constructor ()
      ensures Valid() && fresh(memory) && State() == START
    {
      memory := new MemoryManager();
      live, ids := map[], map[];
    }

    method New(at: nat)
      requires Valid() && at !in live
      modifies this
      ensures Valid() && State() == Step(old(State()), Op.New(at)) && ids[at] == 0 && OthersKept(at)
    {
      hide Inv;
      InvStep(State(), Op.New(at));
      live := live[at := UNINIT];
      ids := ids[at := 0];
    }

    /** A fresh slot with the given bytes; the old slot keeps its count. */
    method Set(at: nat, data: seq<Byte>)
      requires Valid() && at in live
      modifies this, memory
      ensures Valid() && State() == Step(old(State()), Fill(at)) && ids == old(ids) && OthersKept(at)
      ensures Data(at) == data
    {
      hide Inv, SameIn, Used, SameBytes;
      SlotsExist(State());
      InvStep(State(), Fill(at));
      var index := memory.CreateWith(data);
      live := live[at := index];
      BytesStay(old(State()), old(memory.Slots()), State(), memory.Slots(), {at});
    }

    method CopyFrom(at: nat, source: nat)
      requires Valid() && at !in live && source in live
      modifies this, memory`refs
      ensures Valid() && State() == Step(old(State()), CopyTo(at, source)) && OthersKept(at)
      ensures Data(at) == old(Data(source)) && ids[at] == ids[source]
    {
      hide Inv, Increased, Used;
      InvStep(State(), CopyTo(at, source));
      memory.IncreaseCount(live[source]);
      live := live[at := live[source]];
      ids := ids[at := ids[source]];
    }

    method Assign(at: nat, source: nat)
      requires Valid() && at in live && source in live
      modifies this, memory`refs
      ensures Valid() && State() == Step(old(State()), Op.Assign(at, source)) && OthersKept(at)
      ensures Data(at) == old(Data(source)) && ids[at] == old(ids)[source]
    {
      hide Inv, Increased, Used;
      InvStep(State(), Op.Assign(at, source));
      if at != source {
        live := live[at := live[source]];
        ids := ids[at := ids[source]];
        memory.IncreaseCount(live[at]);
      }
    }

    /** The second half of clone: a slot of its own, which starts with the bytes of the shared one. */
    method Detach(at: nat)
      requires Valid() && at in live
      modifies this, memory
      ensures Valid() && ids == old(ids)[at := 0] && OthersKept(at) && Data(at) == old(Data(at))
      ensures State() == Detached(old(State()), at)
      ensures live[at] != UNINIT ==> live[at] == old(memory.nextIndex) && memory.CreatedFor(live[at], |Data(at)|)
    {
      hide Inv, Used, SameIn, SameBytes;
      SlotsExist(State());
      InvDetached(State(), at);
      var index := memory.Copy(live[at], false);
      live := live[at := index];
      ids := ids[at := 0];
      assert State() == Detached(old(State()), at);
      BytesStay(old(State()), old(memory.Slots()), State(), memory.Slots(), {at});
    }

    method Clone(at: nat, source: nat, keepId: bool)
      requires Valid() && at !in live && source in live
      modifies this, memory
      ensures Valid() && State() == Step(old(State()), if keepId then CopyTo(at, source) else DeepClone(at, source))
      ensures Data(at) == old(Data(source)) && ids[at] == (if keepId then ids[source] else 0) && OthersKept(at)
      ensures !keepId && live[at] != UNINIT ==> live[at] == old(memory.nextIndex) && memory.CreatedFor(live[at], |Data(at)|)
    {
      hide Inv, Used, Step, Detached;
      CloneIsCopyAndDetach(State(), at, source);
      CopyFrom(at, source);
      if !keepId { Detach(at); }
    }

    method Destroy(at: nat)
      requires Valid() && at in live
      modifies this, memory
      ensures Valid() && State() == Step(old(State()), Op.Destroy(at)) && OthersKept(at)
    {
      hide Inv, Decreased, Used, SameIn, SameBytes;
      InvStep(State(), Op.Destroy(at));
      memory.DecreaseCount(live[at]);
      live := live - {at};
      ids := ids - {at};
      BytesStay(old(State()), old(memory.Slots()), State(), memory.Slots(), {at});
    }

    // ---- what a mutation does to the buffer of a fresh clone

    /** Nobody else uses the slot of this individual. */
    ghost predicate Alone(at: nat)
      reads this`live
    {
      at in live && live[at] != UNINIT && forall a :: a in live && a != at ==> live[a] != live[at]
    }

    /** The bytes allocated for an individual. */
    function Room(at: nat): nat
      requires at in live
      reads this, memory
    {
      if live[at] in memory.memory then |memory.memory[live[at]]| else 0
    }

    ghost function Snapshot(): Snapshot
      requires Valid()
      reads this, memory
    {
      Snap(State(), memory.Slots(), ids)
    }

    lemma SnapshotShows(at: nat)
      requires Valid() && at in live
      ensures Snapshot().world.live == live && Used(Snapshot().slots, live[at]) == Data(at)
    {
    }

    /** Only the bytes of one individual change. */
    twostate predicate OnlyBytes(at: nat)
      reads this, memory
    {
      old(Valid()) && Valid() && Edited(old(Snapshot()), Snapshot(), at)
    }

    function Length(at: nat): (r: nat)
      requires Valid() && at in live
      reads this, memory
      ensures r == |Data(at)|
    {
      memory.BytesAreUsed(live[at]);
      memory.Length(live[at])
    }

    method Peek(at: nat, k: nat) returns (b: Byte)
      requires Valid() && at in live && k < Room(at)
      ensures k < |Data(at)| ==> b == Data(at)[k]
    {
      b := memory.memory[live[at]][k];
    }

    method Poke(at: nat, k: nat, b: Byte)
      requires Valid() && Alone(at) && k < Room(at)
      modifies memory
      ensures OnlyBytes(at) && Room(at) == old(Room(at))
      ensures Data(at) == if k < |old(Data(at))| then Written(old(Data(at)), k, b) else old(Data(at))
    {
      hide Inv, Used, SameIn, SameBytes, Written;
      memory.Write(live[at], k, b);
      OneSlot(State(), old(memory.Slots()), memory.Slots(), at);
    }

    method InsertBytes(at: nat, start: nat, n: nat)
      requires Valid() && Alone(at)
      modifies memory
      ensures OnlyBytes(at) && Gapped(old(Data(at)), Data(at), start, n) && Room(at) == |Data(at)|
    {
      hide Inv, Used, SameIn, SameBytes, Gapped;
      SlotsExist(State());
      var ok := memory.InsertBytes(live[at], start, n);
      OneSlot(State(), old(memory.Slots()), memory.Slots(), at);
    }

    method RemoveBytes(at: nat, start: nat, n: nat)
      requires Valid() && Alone(at) && start + n <= |Data(at)| && |Data(at)| - n < Room(at)
      modifies memory
      ensures OnlyBytes(at) && Data(at) == old(Data(at))[..start] + old(Data(at))[start + n..]
    {
      hide Inv, SameIn, SameBytes;
      SlotsExist(State());
      var ok := memory.RemoveBytes(live[at], start, n);
      OneSlot(State(), old(memory.Slots()), memory.Slots(), at);
    }

    /** The slots of the seeds, the population and the best individuals are the active ones. */
    method ForceClean(kept: set<nat>)
      requires Valid() && Enabled(State(), Clean(kept))
      modifies memory
      ensures Valid() && State() == Step(old(State()), Clean(kept))
      ensures forall a :: a in live ==> Data(a) == old(Data(a))
    {
      hide Inv, Used, SameIn;
      InvStep(State(), Clean(kept));
      memory.ForceClean(SlotsOf(live, kept));
      assert State() == Step(old(State()), Clean(kept));
      BytesStayCleaned(old(State()), old(memory.Slots()), kept, memory.Slots());
    }
  }
}
