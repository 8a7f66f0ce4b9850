/** Which individuals are alive while the population evolves (fuzzer/evolution.cpp, with the seeds of fuzzer/seeds.cpp and
    fuzzer/handler.cpp). Every construction, assignment and destruction of an individual is one operation of Handles;
    what the random generator and the scores decide is left open. The discipline that a clean-up needs is derived here:
    no method asks for it. */
module Evolution {
  import BestSet
  import opened Handles
  import opened Memory
  import opened Prelude

  function Elements(v: seq<nat>): set<nat> { set a | a in v }

  predicate Distinct(v: seq<nat>) { forall i, j :: 0 <= i < j < |v| ==> v[i] != v[j] }

  predicate Live(live: map<nat, nat>, v: seq<nat>) { forall i :: 0 <= i < |v| ==> v[i] in live }

  /** A vector of live individuals. */
  predicate Vector(live: map<nat, nat>, v: seq<nat>) { Distinct(v) && Live(live, v) }

  /** The slots of the individuals in v, in order. */
  function Slots(live: map<nat, nat>, v: seq<nat>): (r: seq<nat>)
    requires Live(live, v)
  {
    seq(|v|, i requires 0 <= i < |v| => live[v[i]])
  }

  lemma Joins(v: seq<nat>, w: seq<nat>)
    ensures Elements(v + w) == Elements(v) + Elements(w)
    ensures Distinct(v) && Distinct(w) && Elements(v) !! Elements(w) ==> Distinct(v + w)
  {
    if Elements(v) !! Elements(w) {
      forall i, j | 0 <= i < |v| && 0 <= j < |w| ensures v[i] != w[j] { assert v[i] in Elements(v) && w[j] in Elements(w); }
    }
  }

  lemma Splits(v: seq<nat>, n: nat)
    requires Distinct(v) && n <= |v|
    ensures Elements(v) == Elements(v[..n]) + Elements(v[n..]) && Elements(v[..n]) !! Elements(v[n..])
    ensures Distinct(v[..n]) && Distinct(v[n..])
  {
    assert v == v[..n] + v[n..];
    Joins(v[..n], v[n..]);
  }

  lemma SlotsJoin(live: map<nat, nat>, v: seq<nat>, w: seq<nat>)
    requires Live(live, v) && Live(live, w)
    ensures Live(live, v + w) && Slots(live, v + w) == Slots(live, v) + Slots(live, w)
  {
  }

  lemma Appended(live: map<nat, nat>, v: seq<nat>, a: nat, slot: nat)
    requires Vector(live, v) && a !in live
    ensures var live', v' := live[a := slot], v + [a];
            Vector(live', v') && live' - Elements(v') == live - Elements(v) && Slots(live', v') == Slots(live, v) + [slot]
  {
    Joins(v, [a]);
  }

  /** A vector outside w keeps its slots when the individuals in w give way to those in w'. */
  lemma Untouched(live: map<nat, nat>, live': map<nat, nat>, w: set<nat>, w': set<nat>, v: seq<nat>)
    requires live' - w' == live - w && Live(live, v) && Elements(v) !! w
    ensures Live(live', v) && Slots(live', v) == Slots(live, v) && Elements(v) !! w'
  {
    forall i | 0 <= i < |v| ensures v[i] in live' && live'[v[i]] == live[v[i]] && v[i] !in w' {
      assert v[i] in Elements(v);
      assert v[i] in live - w;
      assert (live' - w')[v[i]] == (live - w)[v[i]];
    }
  }

  /** Locals come alive beside the vector v. */
  lemma Born(live: map<nat, nat>, live': map<nat, nat>, locals: set<nat>, v: seq<nat>)
    requires Vector(live, v) && locals <= live'.Keys && live' - locals == live
    ensures Vector(live', v) && Slots(live', v) == Slots(live, v)
    ensures locals <= (live' - Elements(v)).Keys && locals !! Elements(v)
  {
    Untouched(live, live', {}, locals, v);
  }

  /** While they lived, v became v'; then they are destroyed. */
  lemma Gone(live: map<nat, nat>, v: seq<nat>, live1: map<nat, nat>, locals: set<nat>, live2: map<nat, nat>, v': seq<nat>)
    requires locals <= (live1 - Elements(v)).Keys && live1 - locals == live
    requires Vector(live2, v') && live2 - Elements(v') == live1 - Elements(v)
    ensures locals <= live2.Keys
    ensures Vector(live2 - locals, v') && (live2 - locals) - Elements(v') == live - Elements(v)
    ensures Slots(live2 - locals, v') == Slots(live2, v')
  {
    assert forall x :: x in locals ==> x in live2 - Elements(v');
    Untouched(live2, live2 - locals, locals, {}, v');
    assert (live2 - locals) - Elements(v') == (live2 - Elements(v')) - locals == (live1 - locals) - Elements(v);
  }

  /** Slots of which no two are the same, all from a range of numbers. */
  predicate NewSlots(slots: seq<nat>, lo: nat, hi: nat) {
    Distinct(slots) && forall i :: 0 <= i < |slots| ==> lo <= slots[i] < hi
  }

  lemma Inserted(v: seq<nat>, k: nat, a: nat)
    requires Distinct(v) && a !in v && k <= |v|
    ensures var v' := v[..k] + [a] + v[k..]; Distinct(v') && Elements(v') == Elements(v) + {a}
  {
    Splits(v, k);
    Joins(v[..k], [a]);
    Joins(v[..k] + [a], v[k..]);
  }

  lemma Removed(v: seq<nat>, k: nat)
    requires Distinct(v) && k < |v|
    ensures var v' := v[..k] + v[k + 1..]; Distinct(v') && Elements(v') == Elements(v) - {v[k]}
  {
    Splits(v, k);
    Splits(v, k + 1);
    assert v[..k + 1] == v[..k] + [v[k]];
    Joins(v[..k], [v[k]]);
    assert Elements(v[..k]) <= Elements(v[..k + 1]);
    Joins(v[..k], v[k + 1..]);
  }

  /** Alive are the individuals of these four vectors and no others; the seed handler's share slots with the seeds. */
  predicate Home(live: map<nat, nat>, values: seq<nat>, seeds: seq<nat>, v: seq<nat>, w: seq<nat>) {
    && Distinct(values) && Distinct(seeds) && Distinct(v) && Distinct(w)
    && Elements(values) !! Elements(seeds) !! Elements(v) !! Elements(w)
    && live.Keys == Elements(values) + Elements(seeds) + Elements(v) + Elements(w)
    && Live(live, values) && Live(live, seeds) && Live(live, v) && Live(live, w)
    && Slots(live, values) == Slots(live, seeds)
  }

  /** One of them gives way to another vector. */
  lemma Rehoused(live: map<nat, nat>, live': map<nat, nat>, values: seq<nat>, seeds: seq<nat>, v: seq<nat>, v': seq<nat>, w: seq<nat>)
    requires Home(live, values, seeds, v, w) && Vector(live', v') && live' - Elements(v') == live - Elements(v)
    ensures Home(live', values, seeds, v', w)
    ensures Slots(live', seeds) == Slots(live, seeds) && Slots(live', w) == Slots(live, w)
  {
    hide Slots;
    Untouched(live, live', Elements(v), Elements(v'), values);
    Untouched(live, live', Elements(v), Elements(v'), seeds);
    Untouched(live, live', Elements(v), Elements(v'), w);
    assert live'.Keys == (live' - Elements(v')).Keys + Elements(v');
  }

  lemma SlotCount(live: map<nat, nat>, v: seq<nat>)
    requires Live(live, v)
    ensures |Slots(live, v)| == |v|
  {
  }

  lemma SlotsRemoved(live: map<nat, nat>, live': map<nat, nat>, v: seq<nat>, k: nat)
    requires Vector(live, v) && k < |v| && live' == live - {v[k]}
    ensures var v' := v[..k] + v[k + 1..]; Live(live', v') && Slots(live', v') == BestSet.Removed(Slots(live, v), k)
  {
  }

  lemma SlotsPlaced(live: map<nat, nat>, v: seq<nat>, at: nat, a: nat, slot: nat)
    requires Live(live, v) && a !in live
    ensures var live', k := live[a := slot], if at <= |v| then at else |v|; var v' := v[..k] + [a] + v[k..];
            Live(live', v') && Slots(live', v') == BestSet.Placed(Slots(live, v), slot, at)
  {
  }

  /** The members of the population are none of the locals. */
  lemma BesideLocals(live: map<nat, nat>, locals: set<nat>, values: seq<nat>, seeds: seq<nat>, v: seq<nat>, w: seq<nat>)
    requires Home(live - locals, values, seeds, v, w)
    ensures Live(live, seeds) && Slots(live - locals, seeds) == Slots(live, seeds)
    ensures Live(live, v) && Slots(live - locals, v) == Slots(live, v)
    ensures var kept := Elements(seeds) + Elements(v) + Elements(w);
            SlotsOf(live - locals, kept) == SlotsOf(live, kept) && kept <= (live - locals).Keys
  {
    Untouched(live - locals, live, {}, locals, seeds);
    Untouched(live - locals, live, {}, locals, v);
  }

  /** A node on the given slot joins the best individuals. */
  lemma NodeJoins(live: map<nat, nat>, values: seq<nat>, seeds: seq<nat>, v: seq<nat>, best: seq<nat>, at: nat, node: nat, slot: nat)
    requires Home(live, values, seeds, v, best) && node !in live
    ensures var live', k := live[node := slot], if at <= |best| then at else |best|; var more := best[..k] + [node] + best[k..];
            && Home(live', values, seeds, v, more)
            && Slots(live', seeds) == Slots(live, seeds) && Slots(live', v) == Slots(live, v)
            && Slots(live', more) == BestSet.Placed(Slots(live, best), slot, at)
  {
    hide Slots;
    var live', k := live[node := slot], if at <= |best| then at else |best|;
    var more := best[..k] + [node] + best[k..];
    Inserted(best, k, node);
    SlotsPlaced(live, best, at, node, slot);
    assert live' - Elements(more) == live - Elements(best);
    Rehoused(live, live', values, seeds, best, more, v);
  }

  lemma {:induction false} AllowedMore(w: World, ops: seq<Op>, op: Op)
    requires Allowed(w, ops) && Enabled(Handles.Run(w, ops), op)
    ensures Allowed(w, ops + [op]) && Handles.Run(w, ops + [op]) == Step(Handles.Run(w, ops), op)
    decreases ops
  {
    hide Enabled, Step;
    if ops == [] {
      assert [op][1..] == [];
      assert ops + [op] == [op];
    } else {
      AllowedMore(Step(w, ops[0]), ops[1..], op);
      assert (ops + [op])[1..] == ops[1..] + [op];
    }
  }

  lemma SlotOfElement(live: map<nat, nat>, v: seq<nat>, w: seq<nat>, a: nat)
    requires Live(live, v) && Live(live, w) && Slots(live, v) == Slots(live, w) && a in v
    ensures exists b :: b in w && b in live && live[b] == live[a]
  {
    var i :| 0 <= i < |v| && v[i] == a;
    assert Slots(live, v)[i] == live[a] && Slots(live, w)[i] == live[w[i]];
    assert w[i] in w;
  }

  /** What a clean-up demands follows when the locals in u share their slots with the individuals. */
  lemma SharersMayLive(w: World, values: seq<nat>, seeds: seq<nat>, v: seq<nat>, best: seq<nat>, u: seq<nat>)
    requires Vector(w.live, u) && Home(w.live - Elements(u), values, seeds, v, best)
    requires u != [] ==> Live(w.live, v) && Slots(w.live, u) == Slots(w.live, v)
    ensures var kept := Elements(seeds) + Elements(v) + Elements(best);
            Enabled(w, Clean(kept)) && SlotsOf(w.live, kept) == set a | a in w.live :: w.live[a]
  {
    hide Slots, Distinct;
    var kept := Elements(seeds) + Elements(v) + Elements(best);
    var base := w.live - Elements(u);
    Untouched(base, w.live, {}, Elements(u), values);
    Untouched(base, w.live, {}, Elements(u), seeds);
    assert base.Keys == kept + Elements(values) && w.live.Keys == base.Keys + Elements(u);
    forall a | a in w.live ensures w.live[a] in SlotsOf(w.live, kept) {
      if a in u {
        SlotOfElement(w.live, u, v, a);
        var b :| b in v && b in w.live && w.live[b] == w.live[a];
        assert b in Elements(v);
      } else if a in values {
        SlotOfElement(w.live, values, seeds, a);
        var b :| b in seeds && b in w.live && w.live[b] == w.live[a];
        assert b in Elements(seeds);
      }
    }
  }

  class Population {
    ghost var history: seq<Op>
    var world: World
    var next: nat             // no object has had this address or a higher one
    var values: seq<nat>      // the seeds as the seed handler holds them
    var seeds: seq<nat>
    var individuals: seq<nat>
    var best: seq<nat>        // the best individuals, in the order of their scores

    ghost predicate Valid()
      reads this`history, this`world, this`next
    {
      && Allowed(START, history) && world == Handles.Run(START, history)
      && forall a :: a in world.live ==> a < next
    }

    /** Every live individual has a slot. */
    ghost predicate Ready()
      reads this`history, this`world, this`next
    {
      Valid() && forall a :: a in world.live ==> world.live[a] != UNINIT
    }

    function Rest(v: seq<nat>): map<nat, nat>
      reads this`world
    {
      world.live - Elements(v)
    }

    /** The individuals that clean-ups keep. */
    function Kept(): set<nat>
      reads this
    {
      Elements(seeds) + Elements(individuals) + Elements(best)
    }

    /** The state between two generations. */
    ghost predicate Settled()
      reads this
    {
      Ready() && Home(world.live, values, seeds, individuals, best)
    }

    // ---- one operation

    method Perform(op: Op)
      requires Valid() && Enabled(world, op)
      modifies this`history, this`world
      ensures Allowed(START, history) && world == Handles.Run(START, history) && world == Step(old(world), op) && Inv(world)
    {
      AllowedMore(START, history, op);
      world := Step(world, op);
      history := history + [op];
      InvRun(START, history);
    }

    method Copy(source: nat) returns (a: nat)
      requires Ready() && source in world.live
      modifies this`history, this`world, this`next
      ensures Ready() && a == old(next) && next == a + 1 && world.live == old(world.live)[a := old(world.live[source])]
      ensures world.next == old(world.next)
    {
      a := next;
      Perform(CopyTo(a, source));
      next := a + 1;
    }

    method Clone(source: nat) returns (a: nat)
      requires Ready() && source in world.live
      modifies this`history, this`world, this`next
      ensures Ready() && a == old(next) < next && a in world.live && world.live - {a} == old(world.live)
      ensures world.live[a] == old(world.next) < world.next
    {
      a := next;
      InvRun(START, history);
      Perform(DeepClone(a, source));
      next := a + 1;
    }

    method Destroy(a: nat)
      requires Ready() && a in world.live
      modifies this`history, this`world
      ensures Ready() && world.live == old(world.live) - {a} && world.refs.Keys <= old(world.refs.Keys)
      ensures world.next == old(world.next)
    {
      Perform(Op.Destroy(a));
    }

    // ---- vectors of individuals

    method CopyAll(v: seq<nat>) returns (v': seq<nat>)
      requires Ready() && Live(world.live, v)
      modifies this`history, this`world, this`next
      ensures Ready() && Vector(world.live, v') && Rest(v') == old(world.live)
      ensures Slots(world.live, v') == old(Slots(world.live, v)) && world.next == old(world.next)
    {
      v' := [];
      ghost var was := world.live;
      for i := 0 to |v|
        invariant Ready() && Vector(world.live, v') && Rest(v') == was && world.next == old(world.next)
        invariant Slots(world.live, v') == Slots(was, v)[..i]
      {
        assert v[i] in was && world.live[v[i]] == was[v[i]] by { assert Rest(v')[v[i]] == was[v[i]]; }
        ghost var live := world.live;
        var a := Copy(v[i]);
        Appended(live, v', a, was[v[i]]);
        v' := v' + [a];
      }
    }

    method DestroyAll(v: seq<nat>)
      requires Ready() && Vector(world.live, v)
      modifies this`history, this`world
      ensures Ready() && world.live == old(Rest(v)) && world.refs.Keys <= old(world.refs.Keys)
      ensures world.next == old(world.next)
    {
      for i := 0 to |v|
        invariant Ready() && world.live == old(world.live) - Elements(v[..i]) && world.next == old(world.next)
        invariant world.refs.Keys <= old(world.refs.Keys)
      {
        Destroy(v[i]);
      }
    }

    /** push_back; the vector may move to a larger room. */
    method PushBack(v: seq<nat>, source: nat) returns (v': seq<nat>)
      requires Ready() && Vector(world.live, v) && source in Rest(v)
      modifies this`history, this`world, this`next
      ensures Ready() && Vector(world.live, v') && Rest(v') == old(Rest(v))
      ensures Slots(world.live, v') == old(Slots(world.live, v) + [world.live[source]]) && world.next == old(world.next)
    {
      ghost var live := world.live;
      var moves := *;
      if moves {
        SlotsJoin(live, v, [source]);
        v' := CopyAll(v + [source]);
        Untouched(live, world.live, {}, Elements(v'), v);
        ghost var both := world.live;
        DestroyAll(v);
        Untouched(both, world.live, Elements(v), {}, v');
      } else {
        var a := Copy(source);
        Appended(live, v, a, live[source]);
        v' := v + [a];
      }
    }

    method AssignOne(at: nat, source: nat)
      requires Ready() && at in world.live && source in world.live
      modifies this`history, this`world
      ensures Ready() && world.live == old(world.live)[at := old(world.live[source])] && world.next == old(world.next)
    {
      Perform(Op.Assign(at, source));
    }

    method AssignFront(v: seq<nat>, w: seq<nat>)
      requires Ready() && Vector(world.live, v) && Vector(world.live, w) && Elements(v) !! Elements(w) && |v| == |w|
      modifies this`history, this`world
      ensures Ready() && Vector(world.live, v) && Rest(v) == old(Rest(v))
      ensures Slots(world.live, v) == old(Slots(world.live, w)) && world.next == old(world.next)
    {
      for i := 0 to |v|
        invariant world.next == old(world.next) && Ready() && world.live.Keys == old(world.live.Keys) && Rest(v) == old(Rest(v))
        invariant forall k :: 0 <= k < i ==> v[k] in world.live && world.live[v[k]] == old(world.live[w[k]])
      {
        assert v[i] in Elements(v) && w[i] in Elements(w);
        assert w[i] in Rest(v) && Rest(v)[w[i]] == world.live[w[i]];
        AssignOne(v[i], w[i]);
      }
    }

    /** vector::assign: into a larger room, or over the elements there are, the rest destroyed or constructed. */
    method Assign(v: seq<nat>, w: seq<nat>) returns (v': seq<nat>)
      requires Ready() && Vector(world.live, v) && Vector(world.live, w) && Elements(v) !! Elements(w)
      modifies this`history, this`world, this`next
      ensures Ready() && Vector(world.live, v') && Rest(v') == old(Rest(v))
      ensures Slots(world.live, v') == old(Slots(world.live, w)) && world.next == old(world.next)
    {
      var moves := *;
      if moves {
        v' := CopyAll(w);
        DestroyAll(v);
      } else if |v| >= |w| {
        v' := AssignAndCut(v, w);
      } else {
        v' := AssignAndExtend(v, w);
      }
    }

    method AssignAndCut(v: seq<nat>, w: seq<nat>) returns (v': seq<nat>)
      requires Ready() && Vector(world.live, v) && Vector(world.live, w) && Elements(v) !! Elements(w) && |v| >= |w|
      modifies this`history, this`world, this`next
      ensures Ready() && Vector(world.live, v') && Rest(v') == old(Rest(v))
      ensures Slots(world.live, v') == old(Slots(world.live, w)) && world.next == old(world.next)
    {
      ghost var live := world.live;
      Splits(v, |w|);
      v' := v[..|w|];
      AssignFront(v', w);
      Untouched(live, world.live, Elements(v'), Elements(v'), v[|w|..]);
      ghost var all := world.live;
      DestroyAll(v[|w|..]);
      Untouched(all, world.live, Elements(v[|w|..]), {}, v');
      assert Rest(v') == (all - Elements(v')) - Elements(v[|w|..]) == (live - Elements(v')) - Elements(v[|w|..]);
    }

    method AssignAndExtend(v: seq<nat>, w: seq<nat>) returns (v': seq<nat>)
      requires Ready() && Vector(world.live, v) && Vector(world.live, w) && Elements(v) !! Elements(w) && |v| < |w|
      modifies this`history, this`world, this`next
      ensures Ready() && Vector(world.live, v') && Rest(v') == old(Rest(v))
      ensures Slots(world.live, v') == old(Slots(world.live, w)) && world.next == old(world.next)
    {
      ghost var live := world.live;
      Splits(w, |v|);
      AssignFront(v, w[..|v|]);
      Untouched(live, world.live, Elements(v), Elements(v), w[|v|..]);
      ghost var front := world.live;
      var more := CopyAll(w[|v|..]);
      Untouched(front, world.live, {}, Elements(more), v);
      Joins(v, more);
      SlotsJoin(world.live, v, more);
      SlotsJoin(live, w[..|v|], w[|v|..]);
      assert w == w[..|v|] + w[|v|..];
      v' := v + more;
      assert Rest(v') == front - Elements(v);
    }

    // ---- breeding

    /** A vector of individuals created from slot number `since` on, each on a slot of its own. */
    ghost predicate Brood(v: seq<nat>, since: nat)
      reads this`history, this`world, this`next
    {
      Ready() && Vector(world.live, v) && since <= world.next && NewSlots(Slots(world.live, v), since, world.next)
    }

    /** A deep clone as it is or mutated; mutants that came out empty are given up. */
    method GetAndMutate(source: nat) returns (a: nat)
      requires Ready() && source in world.live
      modifies this`history, this`world, this`next
      ensures Ready() && a in world.live && a !in old(world.live) && world.live - {a} == old(world.live)
      ensures old(world.next) <= world.live[a] < world.next
    {
      var tries: nat :| 0 <= tries;
      for i := 0 to tries
        invariant Ready() && world.live == old(world.live) && world.next >= old(world.next)
      {
        var given := Clone(source);
        Destroy(given);
      }
      a := Clone(source);
    }

    /** push_back(get_and_mutate(source)) */
    method Breed(v: seq<nat>, source: nat, ghost since: nat) returns (v': seq<nat>)
      requires Brood(v, since) && source in world.live
      modifies this`history, this`world, this`next
      ensures Brood(v', since) && Rest(v') == old(Rest(v)) && |v'| == |v| + 1 && world.next > old(world.next)
    {
      ghost var live, slots := world.live, Slots(world.live, v);
      var x := GetAndMutate(source);
      ghost var live1 := world.live;
      Born(live, live1, {x}, v);
      v' := PushBack(v, x);
      assert Slots(world.live, v') == slots + [live1[x]];
      Gone(live, v, live1, {x}, world.live, v');
      Destroy(x);
    }

    /** The same from a copy of a member of the population. */
    method BreedCopy(v: seq<nat>, source: nat, ghost since: nat) returns (v': seq<nat>)
      requires Brood(v, since) && source in world.live
      modifies this`history, this`world, this`next
      ensures Brood(v', since) && Rest(v') == old(Rest(v)) && |v'| == |v| + 1
    {
      ghost var live := world.live;
      var x := Copy(source);
      ghost var live1 := world.live;
      Born(live, live1, {x}, v);
      v' := Breed(v, x, since);
      Gone(live, v, live1, {x}, world.live, v');
      Destroy(x);
    }

    /** The same from a cross-over of two parents: a clone of either, with bytes of both. */
    method BreedChild(v: seq<nat>, mother: nat, father: nat, ghost since: nat) returns (v': seq<nat>)
      requires Brood(v, since) && mother in world.live && father in world.live
      modifies this`history, this`world, this`next
      ensures Brood(v', since) && Rest(v') == old(Rest(v)) && |v'| == |v| + 1
    {
      ghost var live := world.live;
      var first := *;
      var x := Clone(if first then mother else father);
      ghost var live1 := world.live;
      Born(live, live1, {x}, v);
      v' := Breed(v, x, since);
      Gone(live, v, live1, {x}, world.live, v');
      Destroy(x);
    }

    /** How many get_best returns. */
    function BestCount(num: nat): nat
      reads this`best
    {
      if num >= |best| then |best| else if num == 0 then 1 else num
    }

    /** get_best: copies of that many of the best individuals, best first; of one even when none is asked for. */
    method GetBest(num: nat) returns (v: seq<nat>)
      requires Ready() && Live(world.live, best)
      modifies this`history, this`world, this`next
      ensures Ready() && Vector(world.live, v) && Rest(v) == old(world.live) && world.next == old(world.next)
      ensures |v| == BestCount(num)
      ensures forall i :: 0 <= i < |v| ==> Slots(world.live, v)[i] == old(world.live[best[|best| - 1 - i]])
    {
      v := [];
      for i := 0 to BestCount(num)
        invariant Ready() && Vector(world.live, v) && Rest(v) == old(world.live) && |v| == i && world.next == old(world.next)
        invariant forall k :: 0 <= k < i ==> Slots(world.live, v)[k] == old(world.live[best[|best| - 1 - k]])
      {
        v := PushCopy(v, best[|best| - 1 - i]);
      }
    }

    /** push_back of a clone that shares the slot, from outside the vector. */
    method PushCopy(v: seq<nat>, source: nat) returns (v': seq<nat>)
      requires Ready() && Vector(world.live, v) && source in world.live && source !in v
      modifies this`history, this`world, this`next
      ensures Ready() && Vector(world.live, v') && Rest(v') == old(Rest(v)) && world.next == old(world.next)
      ensures Slots(world.live, v') == old(Slots(world.live, v) + [world.live[source]])
    {
      ghost var live, slots := world.live, Slots(world.live, v);
      var x := Copy(source);
      ghost var live1 := world.live;
      assert live1 - {x} == live;
      Born(live, live1, {x}, v);
      v' := PushBack(v, x);
      Gone(live, v, live1, {x}, world.live, v');
      Destroy(x);
    }

    // ---- the best individuals

    /** An individual goes, with a copy of it alive meanwhile. */
    method DestroyCopied(a: nat)
      requires Ready() && a in world.live
      modifies this`history, this`world, this`next
      ensures Ready() && world.live == old(world.live) - {a} && world.next == old(world.next)
    {
      var min := Copy(a);
      Destroy(a);
      Destroy(min);
    }

    /** container.erase */
    method Evict(k: nat)
      requires Settled() && k < |best|
      modifies this`history, this`world, this`next, this`best
      ensures Settled() && Slots(world.live, seeds) == old(Slots(world.live, seeds)) && world.next == old(world.next)
      ensures Slots(world.live, individuals) == old(Slots(world.live, individuals))
      ensures Slots(world.live, best) == BestSet.Removed(old(Slots(world.live, best)), k)
    {
      hide Slots;
      ghost var live, was := world.live, best;
      DestroyCopied(best[k]);
      Removed(best, k);
      var rest := best[..k] + best[k + 1..];
      assert world.live - Elements(rest) == live - Elements(best);
      Rehoused(live, world.live, values, seeds, best, rest, individuals);
      SlotsRemoved(live, world.live, was, k);
      best := rest;
    }

    /** A clone that shares the slot, the pair it is copied into, the node that the pair is copied into. */
    method CloneIntoNode(source: nat) returns (node: nat)
      requires Ready() && source in world.live
      modifies this`history, this`world, this`next
      ensures Ready() && node !in old(world.live) && world.live == old(world.live)[node := old(world.live[source])]
      ensures world.next == old(world.next)
    {
      var clone := Copy(source);
      var pair := Copy(clone);
      node := Copy(pair);
      Destroy(pair);
      Destroy(clone);
    }

    /** container.insert */
    method Store(source: nat, at: nat)
      requires Settled() && source in world.live
      modifies this`history, this`world, this`next, this`best
      ensures Settled() && Slots(world.live, seeds) == old(Slots(world.live, seeds)) && world.next == old(world.next)
      ensures Slots(world.live, individuals) == old(Slots(world.live, individuals))
      ensures Slots(world.live, best) == BestSet.Placed(old(Slots(world.live, best)), old(world.live[source]), at)
    {
      ghost var live := world.live;
      var node := CloneIntoNode(source);
      hide Slots, Distinct, Live;
      NodeJoins(live, values, seeds, individuals, best, at, node, live[source]);
      var k := if at <= |best| then at else |best|;
      best := best[..k] + [node] + best[k..];
    }

    /** insert of one individual, whatever becomes of it. */
    method Offer(source: nat, fate: BestSet.Fate)
      requires Settled() && source in individuals
      modifies this`history, this`world, this`next, this`best
      ensures Settled() && Slots(world.live, seeds) == old(Slots(world.live, seeds)) && world.next == old(world.next)
      ensures Slots(world.live, individuals) == old(Slots(world.live, individuals))
      ensures Slots(world.live, best) == BestSet.Fated(old(Slots(world.live, best)), old(world.live[source]), fate)
    {
      assert source in Elements(individuals);
      ghost var i :| 0 <= i < |individuals| && individuals[i] == source;
      assert Slots(world.live, individuals)[i] == world.live[source];
      match fate
      case Refused =>
      case Stored(at) => Store(source, at);
      case InPlaceOf(gone, at) =>
        if gone < |best| {
          Evict(gone);
          assert Slots(world.live, individuals)[i] == world.live[source];
        }
        Store(source, at);
    }

    // ---- a generation

    /** Any number of children of any parents. */
    method Mate() returns (v: seq<nat>)
      requires Settled()
      modifies this`history, this`world, this`next
      ensures Brood(v, old(world.next)) && Rest(v) == old(world.live)
    {
      var n: nat :| 0 <= n;
      v := [];
      for k := 0 to if individuals == [] then 0 else n
        invariant Brood(v, old(world.next)) && Rest(v) == old(world.live)
      {
        var i, j :| 0 <= i < |individuals| && 0 <= j < |individuals|;
        assert individuals[i] in Rest(v) && individuals[j] in Rest(v);
        v := BreedChild(v, individuals[i], individuals[j], old(world.next));
      }
    }

    /** Offspring of copies of the population's members from `first` on, as many as asked for and as there are. */
    method Reinject(v: seq<nat>, first: nat, count: nat, ghost since: nat) returns (v': seq<nat>)
      requires Brood(v, since) && Live(Rest(v), individuals)
      modifies this`history, this`world, this`next
      ensures Brood(v', since) && Rest(v') == old(Rest(v))
      ensures |v'| == |v| + if first + count <= |individuals| then count else if first <= |individuals| then |individuals| - first else 0
    {
      v' := v;
      var i := first;
      while i < first + count && i < |individuals|
        invariant first <= i <= first + count && (i <= |individuals| || i == first) && |v'| == |v| + (i - first)
        invariant Brood(v', since) && Rest(v') == old(Rest(v))
      {
        assert individuals[i] in Rest(v');
        v' := BreedCopy(v', individuals[i], since);
        i := i + 1;
      }
    }

    /** Offspring of each individual in `parents`, which are locals. */
    method BreedEach(v: seq<nat>, parents: seq<nat>, ghost since: nat) returns (v': seq<nat>)
      requires Brood(v, since) && Live(Rest(v), parents)
      modifies this`history, this`world, this`next
      ensures Brood(v', since) && Rest(v') == old(Rest(v)) && |v'| == |v| + |parents|
    {
      v' := v;
      for i := 0 to |parents|
        invariant Brood(v', since) && Rest(v') == old(Rest(v)) && |v'| == |v| + i
      {
        assert parents[i] in Rest(v');
        v' := Breed(v', parents[i], since);
      }
    }

    /** Offspring of that many of the best individuals. */
    method BreedBest(v: seq<nat>, num: nat, ghost since: nat) returns (v': seq<nat>)
      requires Brood(v, since) && Live(Rest(v), best)
      modifies this`history, this`world, this`next
      ensures Brood(v', since) && Rest(v') == old(Rest(v)) && |v'| == |v| + BestCount(num)
    {
      hide NewSlots, Slots;
      ghost var live := world.live;
      assert Live(live, best) by { assert forall i :: 0 <= i < |best| ==> best[i] in Rest(v); }
      var parents := GetBest(num);
      ghost var live1 := world.live;
      Born(live, live1, Elements(parents), v);
      assert Live(Rest(v), parents) by { assert forall i :: 0 <= i < |parents| ==> parents[i] in Elements(parents); }
      v' := BreedEach(v, parents, since);
      Gone(live, v, live1, Elements(parents), world.live, v');
      assert Vector(world.live, parents) by { assert forall i :: 0 <= i < |parents| ==> parents[i] in Elements(parents); }
      DestroyAll(parents);
    }

    /** The next population is made, before it is assigned: children, then as many reinjected members as are missing to
        the least size, then perhaps offspring of the best and, when these are too few, of further members. */
    method Reproduce(least: nat) returns (v: seq<nat>)
      requires Settled()
      modifies this`history, this`world, this`next
      ensures Brood(v, old(world.next)) && Rest(v) == old(world.live)
      ensures least <= |individuals| ==> least <= |v|
    {
      hide Slots, Distinct, NewSlots;
      v := Mate();
      var last := 0;
      if |v| < least {
        last := least - |v| - 1;
        v := Reinject(v, 0, last + 1, old(world.next));
      }
      var more := *;
      if more {
        var num: nat :| num > 0;
        v := BreedBest(v, num, old(world.next));
        if num > |best| { v := Reinject(v, last, num - |best|, old(world.next)); }
      }
    }

    method PushSeeds(v: seq<nat>, n: nat) returns (v': seq<nat>)
      requires Ready() && Vector(world.live, v) && n <= |seeds| && Live(Rest(v), seeds)
      modifies this`history, this`world, this`next
      ensures Ready() && Vector(world.live, v') && Rest(v') == old(Rest(v)) && world.next == old(world.next)
      ensures Slots(world.live, v') == old(Slots(world.live, v) + Slots(Rest(v), seeds)[..n])
    {
      v' := v;
      ghost var slots, ofSeeds := Slots(world.live, v), Slots(Rest(v), seeds);
      for i := 0 to n
        invariant Ready() && Vector(world.live, v') && Rest(v') == old(Rest(v)) && world.next == old(world.next)
        invariant Slots(world.live, v') == slots + ofSeeds[..i]
      {
        assert seeds[i] in Rest(v') && Rest(v')[seeds[i]] == ofSeeds[i];
        v' := PushBack(v', seeds[i]);
        assert ofSeeds[..i + 1] == ofSeeds[..i] + [ofSeeds[i]];
      }
    }

    /** Parents for a perturbation: half as many of the best individuals and of the seeds as the population has. */
    method Starters() returns (parents: seq<nat>)
      requires Settled()
      modifies this`history, this`world, this`next
      ensures Ready() && Vector(world.live, parents) && Rest(parents) == old(world.live) && world.next == old(world.next)
      ensures individuals != [] ==> |parents| <= |individuals|
      ensures var half, bests := |individuals| / 2, BestCount(|individuals| / 2);
              && |parents| == bests + (if half <= |seeds| then half else |seeds|)
              && (forall i :: 0 <= i < bests ==> Slots(world.live, parents)[i] == old(world.live[best[|best| - 1 - i]]))
              && Slots(world.live, parents)[bests..] == old(Slots(world.live, seeds))[..|parents| - bests]
    {
      var half := |individuals| / 2;
      var bests := GetBest(half);
      SlotCount(world.live, bests);
      ghost var slots := Slots(world.live, bests);
      parents := PushSeeds(bests, if half <= |seeds| then half else |seeds|);
      hide Slots;
      SlotCount(world.live, parents);
    }

    /** Offspring of the parents, and children of members of the population until there are as many as members. */
    method BreedAll(parents: seq<nat>) returns (v: seq<nat>)
      requires Ready() && Vector(world.live, parents) && Live(Rest(parents), individuals)
      modifies this`history, this`world, this`next
      ensures Brood(v, old(world.next)) && Rest(v) == old(world.live)
      ensures |v| == if |parents| < |individuals| then |individuals| else |parents|
    {
      v := BreedEach([], parents, old(world.next));
      while |v| < |individuals|
        invariant Brood(v, old(world.next)) && Rest(v) == old(world.live)
        invariant |parents| <= |v| && (|v| <= |individuals| || |v| == |parents|)
      {
        var i, j :| 0 <= i < |individuals| && 0 <= j < |individuals|;
        assert individuals[i] in old(world.live) && individuals[j] in old(world.live) by {
          assert individuals[i] in old(Rest(parents)) && individuals[j] in old(Rest(parents));
        }
        assert individuals[i] in Rest(v) && individuals[j] in Rest(v);
        v := BreedChild(v, individuals[i], individuals[j], old(world.next));
      }
    }

    /** individuals.assign(v), while the individuals in `locals` are alive, v among them. */
    method Replace(v: seq<nat>, ghost locals: set<nat>)
      requires Ready() && Vector(world.live, v) && Elements(v) <= locals <= world.live.Keys
      requires Home(world.live - locals, values, seeds, individuals, best)
      modifies this`history, this`world, this`next, this`individuals
      ensures Ready() && Vector(world.live, v) && locals <= world.live.Keys && world.next == old(world.next)
      ensures Home(world.live - locals, values, seeds, individuals, best)
      ensures Live(world.live, individuals) && Slots(world.live, individuals) == Slots(world.live, v) == old(Slots(world.live, v))
      ensures Live(world.live, seeds) && Slots(world.live, seeds) == old(Slots(world.live - locals, seeds))
      ensures Slots(world.live - locals, best) == old(Slots(world.live - locals, best))
    {
      hide Slots;
      ghost var live, was := world.live, individuals;
      assert Live(live, individuals) && Elements(v) !! Elements(individuals) && locals !! Elements(individuals);
      var w := Assign(individuals, v);
      ghost var base, base' := live - locals, world.live - locals;
      Untouched(live, world.live, Elements(was), Elements(w), v);
      assert locals <= (live - Elements(was)).Keys == (world.live - Elements(w)).Keys;
      assert base' - Elements(w) == (world.live - Elements(w)) - locals == (live - Elements(was)) - locals == base - Elements(was);
      Untouched(world.live, base', locals, {}, w);
      Rehoused(base, base', values, seeds, was, w, best);
      individuals := w;
      Untouched(base', world.live, {}, locals, seeds);
    }

    /** The new population is assigned and the locals are destroyed. */
    method Leave(v: seq<nat>, parents: seq<nat>, ghost locals: set<nat>)
      requires Ready() && Vector(world.live, v) && Vector(world.live, parents) && Elements(parents) !! Elements(v)
      requires locals == Elements(parents) + Elements(v) <= world.live.Keys
      requires Home(world.live - locals, values, seeds, individuals, best)
      modifies this`history, this`world, this`next, this`individuals
      ensures Settled() && Slots(world.live, seeds) == old(Slots(world.live - locals, seeds)) && world.next == old(world.next)
      ensures Slots(world.live, individuals) == old(Slots(world.live, v))
      ensures Slots(world.live, best) == old(Slots(world.live - locals, best))
    {
      hide Slots, Distinct, Home;
      Replace(v, locals);
      BesideLocals(world.live, locals, values, seeds, individuals, best);
      ghost var live := world.live;
      DestroyAll(v);
      DestroyAll(parents);
      assert world.live == live - locals;
    }

    /** The parents and the offspring are locals. */
    method GlobalPerturbation()
      requires Settled()
      modifies this`history, this`world, this`next, this`individuals
      ensures Settled() && Slots(world.live, seeds) == old(Slots(world.live, seeds)) && world.next >= old(world.next)
      ensures Slots(world.live, best) == old(Slots(world.live, best))
      ensures NewSlots(Slots(world.live, individuals), old(world.next), world.next)
      ensures old(individuals) != [] ==> |individuals| == |old(individuals)|
    {
      hide Slots, Distinct, NewSlots;
      ghost var live := world.live;
      var parents := Starters();
      ghost var live1 := world.live;
      var v := BreedAll(parents);
      ghost var locals := Elements(parents) + Elements(v);
      assert world.live - locals == (world.live - Elements(v)) - Elements(parents) == live;
      assert Vector(world.live, parents) && Elements(parents) !! Elements(v) && Elements(parents) <= world.live.Keys by {
        Untouched(live1, world.live, {}, Elements(v), parents);
        assert forall a :: a in parents ==> a in live1;
      }
      ghost var slots := Slots(world.live, v);
      SlotCount(world.live, v);
      Leave(v, parents, locals);
      SlotCount(world.live, individuals);
    }

    /** force_clean with the indices of the population, while the individuals in v are alive. */
    method ForceClean(ghost v: seq<nat>)
      requires Ready() && Vector(world.live, v) && Home(Rest(v), values, seeds, individuals, best)
      requires v != [] ==> Live(world.live, individuals) && Slots(world.live, v) == Slots(world.live, individuals)
      modifies this`history, this`world
      ensures Ready() && world.live == old(world.live) && world.refs.Keys == SlotsOf(world.live, Kept())
      ensures world.next == old(world.next)
    {
      hide Home, Slots, Distinct, Live;
      var kept := Kept();
      SharersMayLive(world, values, seeds, individuals, best, v);
      CleanLeavesExactlyTheActive(history, kept);
      Perform(Clean(kept));
    }

    /** Every individual is offered to the best ones, in turn. */
    method Register(fates: seq<BestSet.Fate>)
      requires Settled() && |fates| == |individuals|
      modifies this`history, this`world, this`next, this`best
      ensures Settled() && Slots(world.live, seeds) == old(Slots(world.live, seeds)) && world.next == old(world.next)
      ensures Slots(world.live, individuals) == old(Slots(world.live, individuals))
      ensures Slots(world.live, best) ==
              BestSet.Registered(old(Slots(world.live, best)), old(Slots(world.live, individuals)), fates)
    {
      ghost var slots := Slots(world.live, individuals);
      for i := 0 to |individuals|
        invariant Settled() && Slots(world.live, seeds) == old(Slots(world.live, seeds)) && world.next == old(world.next)
        invariant Slots(world.live, individuals) == slots
        invariant Slots(world.live, best) == BestSet.Registered(old(Slots(world.live, best)), slots[..i], fates[..i])
      {
        assert world.live[individuals[i]] == slots[i];
        Offer(individuals[i], fates[i]);
        assert slots[..i + 1][..i] == slots[..i] && fates[..i + 1][..i] == fates[..i];
      }
      assert slots[..|slots|] == slots && fates[..|fates|] == fates;
    }

    /** The offspring live until the clean-up is done. */
    method Renew(least: nat)
      requires Settled()
      modifies this`history, this`world, this`next, this`individuals
      ensures Settled() && Slots(world.live, seeds) == old(Slots(world.live, seeds)) && world.next >= old(world.next)
      ensures Slots(world.live, best) == old(Slots(world.live, best))
      ensures NewSlots(Slots(world.live, individuals), old(world.next), world.next)
      ensures least <= |old(individuals)| ==> least <= |individuals|
      ensures world.refs.Keys == SlotsOf(world.live, Kept())
    {
      hide Home, Slots, Distinct, NewSlots;
      var v := Reproduce(least);
      SlotCount(world.live, v);
      Replace(v, Elements(v));
      ForceClean(v);
      BesideLocals(world.live, Elements(v), values, seeds, individuals, best);
      DestroyAll(v);
      SlotCount(world.live, individuals);
      InvRun(START, history);
      assert forall a :: a in world.live ==> world.live[a] in world.refs;
    }

    /** One generation: what becomes of the old individuals among the best, and the new individuals. */
    method Evolve(least: nat, fates: seq<BestSet.Fate>, perturbed: bool)
      requires Settled() && |fates| == |individuals|
      modifies this`history, this`world, this`next, this`individuals, this`best
      ensures Settled() && Slots(world.live, seeds) == old(Slots(world.live, seeds)) && world.next >= old(world.next)
      ensures Slots(world.live, best) ==
              BestSet.Registered(old(Slots(world.live, best)), old(Slots(world.live, individuals)), fates)
      ensures NewSlots(Slots(world.live, individuals), old(world.next), world.next)
      ensures old(individuals) != [] && least <= |old(individuals)| ==> least <= |individuals|
      ensures old(individuals) != [] && perturbed ==> |individuals| == |old(individuals)|
      ensures world.refs.Keys == SlotsOf(world.live, Kept())
    {
      hide Home, Slots, NewSlots;
      Register(fates);
      if perturbed {
        GlobalPerturbation();
        assert Rest([]) == world.live;
        ForceClean([]);
      } else {
        Renew(least);
      }
    }

    // ---- from the seeds to any generation

    ghost predicate Loading()
      reads this
    {
      && Ready() && Vector(world.live, values) && world.live.Keys == Elements(values)
      && seeds == [] && individuals == [] && best == []
    }

    constructor ()
      ensures Loading() && values == []
    {
      history, world, next := [], START, 0;
      values, seeds, individuals, best := [], [], [], [];
    }

    /** An individual without a slot; it is filled with data, or dropped when a line gave none. */
    method Construct(errored: bool) returns (a: nat)
      requires Ready()
      modifies this`history, this`world, this`next
      ensures Ready() && a !in old(world.live)
      ensures if errored then world.live == old(world.live) else a in world.live && world.live - {a} == old(world.live)
    {
      a := next;
      next := a + 1;
      Perform(New(a));
      InvRun(START, history);
      Perform(if errored then Op.Destroy(a) else Fill(a));
    }

    /** One seed is read or made up. */
    method AddSeed(errored: bool)
      requires Loading()
      modifies this`history, this`world, this`next, this`values
      ensures Loading() && |values| == old(|values|) + if errored then 0 else 1
    {
      ghost var live, was := world.live, values;
      var a := Construct(errored);
      if !errored {
        ghost var live1 := world.live;
        Born(live, live1, {a}, values);
        values := PushBack(values, a);
        assert |Slots(world.live, values)| == |was| + 1;
        Gone(live, was, live1, {a}, world.live, values);
        Destroy(a);
        assert world.live.Keys == (world.live - Elements(values)).Keys + Elements(values);
      }
    }

    /** The population is made of copies of the seeds, and starts as copies of these. */
    method Populate()
      requires Loading()
      modifies this`history, this`world, this`next, this`seeds, this`individuals
      ensures Settled() && |individuals| == |seeds| == |values|
      ensures Slots(world.live, seeds) == Slots(world.live, individuals) == old(Slots(world.live, values))
    {
      ghost var live := world.live;
      var copies := CopyAll(values);
      ghost var live1 := world.live;
      Untouched(live, live1, {}, Elements(copies), values);
      var v := [];
      for i := 0 to |copies|
        invariant Ready() && Vector(world.live, v) && Rest(v) == live1
        invariant Slots(world.live, v) == Slots(live1, copies)[..i]
      {
        assert copies[i] in Rest(v) && Rest(v)[copies[i]] == live1[copies[i]];
        v := PushBack(v, copies[i]);
      }
      Untouched(live1, world.live, {}, Elements(v), values);
      Untouched(live1, world.live, {}, Elements(v), copies);
      assert world.live.Keys == (world.live - Elements(v)).Keys + Elements(v);
      assert live1.Keys == (live1 - Elements(copies)).Keys + Elements(copies);
      seeds, individuals := copies, v;
    }

    /** Any number of generations. Each clean-up finds what it demands, so live individuals are safe: each one's slot
        exists and is counted at least once per individual on it. Every seed keeps its slot; the individuals are new
        ones, no two on one slot and not fewer than the least; and no other slots are left than the population's. */
    method Generations(least: nat, n: nat)
      requires Settled()
      modifies this`history, this`world, this`next, this`individuals, this`best
      ensures Settled() && Slots(world.live, seeds) == old(Slots(world.live, seeds))
      ensures Allowed(START, history) && world == Handles.Run(START, history)
      ensures forall a :: a in world.live ==>
                var slot := world.live[a]; slot in world.refs && world.refs[slot] >= |Holders(world.live, slot)| >= 1
      ensures n > 0 ==> world.refs.Keys == SlotsOf(world.live, Kept())
      ensures n > 0 ==> NewSlots(Slots(world.live, individuals), old(world.next), world.next)
      ensures 0 < least <= |old(individuals)| ==> least <= |individuals|
    {
      hide Slots;
      for i := 0 to n
        invariant Settled() && Slots(world.live, seeds) == old(Slots(world.live, seeds)) && world.next >= old(world.next)
        invariant i > 0 ==> world.refs.Keys == SlotsOf(world.live, Kept())
        invariant i > 0 ==> NewSlots(Slots(world.live, individuals), old(world.next), world.next)
        invariant 0 < least <= |old(individuals)| ==> least <= |individuals|
      {
        ghost var refusals := seq(|individuals|, _ => BestSet.Refused);
        assert |refusals| == |individuals|;
        var fates: seq<BestSet.Fate> :| |fates| == |individuals|;
        var perturbed := *;
        Evolve(least, fates, perturbed);
      }
      forall a | a in world.live ensures world.live[a] in world.refs && world.refs[world.live[a]] >= |Holders(world.live, world.live[a])| >= 1 {
        LiveHandlesAreSafe(history, a);
      }
    }
  }
}
