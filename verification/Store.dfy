/** The element store shared by the instrumenter and the fuzzer (common/store.cpp, common/elements.h), how
    the instrumenter fills it (clang-instrument/instrument.cpp), and how the fuzzer looks blocks up. */
module Store {
  import opened Prelude

  type Id = nat
  const ERROR_ID: Id := 0

  datatype Operator =
    | BufferRead | BufferWrite | BufferReadWrite | BufferUnknown
    | IntegerMayOverflow | IntegerUnknown | CastUnsafe | CastUnknown | PassThrough

  datatype Element =
    | SourceElement
    | FunctionElement(blocks: seq<Id>)
    | BlockElement(func: Id, internalId: nat, summaries: seq<Id>)
    | SummaryElement(block: Id, op: Operator)

  type Elements = map<Id, Element>

  /** What the lookup relies on: a function lists stored block elements. */
  predicate BlocksStored(elements: Elements, ids: seq<Id>) {
    forall i :: 0 <= i < |ids| ==> ids[i] in elements && elements[ids[i]].BlockElement?
  }

  predicate WellBuilt(elements: Elements) {
    forall f :: f in elements && elements[f].FunctionElement? ==> BlocksStored(elements, elements[f].blocks)
  }

  /** The uncached lookup: the first listed block with the internal id, else ERROR_ID. */
  function FirstBlock(elements: Elements, ids: seq<Id>, block: nat): Id
    requires BlocksStored(elements, ids)
  {
    if ids == [] then ERROR_ID
    else if elements[ids[0]].internalId == block then ids[0]
    else FirstBlock(elements, ids[1..], block)
  }

  function Lookup(elements: Elements, func: Id, block: nat): Id
    requires WellBuilt(elements)
  {
    if func in elements && elements[func].FunctionElement? then FirstBlock(elements, elements[func].blocks, block)
    else ERROR_ID
  }

  lemma {:induction false} FirstBlockAppend(elements: Elements, ids: seq<Id>, id: Id, block: nat)
    requires BlocksStored(elements, ids) && 0 !in ids && id in elements && elements[id].BlockElement?
    ensures BlocksStored(elements, ids + [id])
    ensures FirstBlock(elements, ids + [id], block) ==
            if FirstBlock(elements, ids, block) != ERROR_ID then FirstBlock(elements, ids, block)
            else if elements[id].internalId == block then id else ERROR_ID
    decreases |ids|
  {
    if ids != [] {
      assert (ids + [id])[1..] == ids[1..] + [id];
      FirstBlockAppend(elements, ids[1..], id, block);
    }
  }

  lemma {:induction false} FirstBlockKept(a: Elements, b: Elements, ids: seq<Id>, block: nat)
    requires BlocksStored(a, ids) && forall id :: id in ids ==> id in b && b[id] == a[id]
    ensures BlocksStored(b, ids) && FirstBlock(a, ids, block) == FirstBlock(b, ids, block)
    decreases |ids|
  {
    assert BlocksStored(b, ids);
    if ids != [] { FirstBlockKept(a, b, ids[1..], block); }
  }

  // ---------------------------------------------------------------- filling the store

  datatype CfgBlock = CfgBlock(id: nat, goals: seq<Operator>)

  class Builder {
    var globalId: Id
    var elements: Elements

    ghost predicate Valid()
      reads this
    {
      WellBuilt(elements) && forall id :: id in elements ==> 1 <= id <= globalId
    }

    constructor ()
      ensures Valid() && elements == map[]
    {
      globalId, elements := ERROR_ID, map[];
    }

    method NextId() returns (id: Id)
      modifies this`globalId
      ensures id == globalId == old(globalId) + 1
    {
      globalId := globalId + 1;
      id := globalId;
    }

    /** The function element comes first, without blocks. */
    method AddFunction() returns (func: Id)
      requires Valid()
      modifies this
      ensures Valid() && func !in old(elements)
      ensures elements == old(elements)[func := FunctionElement([])]
    {
      func := NextId();
      elements := elements[func := FunctionElement([])];
    }

    /** One element per goal of a block. */
    method AddGoals(block: Id, goals: seq<Operator>) returns (ids: seq<Id>)
      requires forall id :: id in elements ==> 1 <= id <= globalId
      modifies this
      ensures forall id :: id in elements ==> 1 <= id <= globalId
      ensures globalId >= old(globalId)
      ensures forall id :: id in old(elements) ==> id in elements && elements[id] == old(elements)[id]
      ensures forall id :: id in elements && id !in old(elements) ==> id > old(globalId) && elements[id].SummaryElement?
      ensures |ids| == |goals|
      ensures forall j :: 0 <= j < |goals| ==> ids[j] in elements && elements[ids[j]] == SummaryElement(block, goals[j])
      ensures forall j, l :: 0 <= j < l < |ids| ==> ids[j] != ids[l]
    {
      ids := [];
      for i := 0 to |goals|
        invariant forall id :: id in elements ==> 1 <= id <= globalId
        invariant globalId >= old(globalId) && |ids| == i
        invariant forall id :: id in old(elements) ==> id in elements && elements[id] == old(elements)[id]
        invariant forall id :: id in elements && id !in old(elements) ==> id > old(globalId) && elements[id].SummaryElement?
        invariant forall j :: 0 <= j < i ==> ids[j] in elements && elements[ids[j]] == SummaryElement(block, goals[j])
        invariant forall j, l :: 0 <= j < l < |ids| ==> ids[j] != ids[l]
      {
        var id := NextId();
        elements := elements[id := SummaryElement(block, goals[i])];
        ids := ids + [id];
      }
    }

    /** One block of a function: its own lookup is added, every other lookup stays. */
    method AddBlock(func: Id, block: CfgBlock) returns (cur: Id)
      requires Valid() && func in elements && elements[func].FunctionElement?
      requires Lookup(elements, func, block.id) == ERROR_ID
      modifies this
      ensures Valid() && func in elements && elements[func].FunctionElement?
      ensures cur !in old(elements) && BlockStored(elements, func, cur, block)
      ensures KeptBut(func, old(elements), elements)
      ensures forall f, b :: Lookup(elements, f, b) ==
                             if f == func && b == block.id then cur else Lookup(old(elements), f, b)
    {
      ghost var was := elements;
      var ids := elements[func].blocks;
      cur := NextId();
      elements := elements[func := FunctionElement(ids + [cur])];
      var goals := AddGoals(cur, block.goals);
      elements := elements[cur := BlockElement(func, block.id, goals)];
      forall f | f in elements && elements[f].FunctionElement?
        ensures f in was && was[f].FunctionElement? && BlocksStored(elements, elements[f].blocks)
      {
        assert BlocksStored(was, was[f].blocks);
      }
      assert 0 !in ids;
      forall f, b ensures Lookup(elements, f, b) == if f == func && b == block.id then cur else Lookup(was, f, b) {
        if f in was && was[f].FunctionElement? {
          FirstBlockKept(was, elements, was[f].blocks, b);
          if f == func { FirstBlockAppend(elements, ids, cur, b); }
        }
      }
    }

    /** All blocks of a function's control-flow graph. */
    method AddBlocks(func: Id, cfg: seq<CfgBlock>) returns (ids: seq<Id>)
      requires Valid() && func in elements && elements[func].FunctionElement?
      requires forall i, j :: 0 <= i < j < |cfg| ==> cfg[i].id != cfg[j].id
      requires forall i :: 0 <= i < |cfg| ==> Lookup(elements, func, cfg[i].id) == ERROR_ID
      modifies this
      ensures Valid() && |ids| == |cfg|
      ensures forall i :: 0 <= i < |cfg| ==> ids[i] != ERROR_ID && Lookup(elements, func, cfg[i].id) == ids[i]
      ensures forall i :: 0 <= i < |cfg| ==> BlockStored(elements, func, ids[i], cfg[i])
      ensures KeptBut(func, old(elements), elements)
      ensures forall f, b :: (f != func || forall i :: 0 <= i < |cfg| ==> cfg[i].id != b) ==>
                             Lookup(elements, f, b) == Lookup(old(elements), f, b)
    {
      ids := [];
      for i := 0 to |cfg|
        invariant Valid() && |ids| == i && func in elements && elements[func].FunctionElement?
        invariant forall j :: 0 <= j < i ==> ids[j] != ERROR_ID && Lookup(elements, func, cfg[j].id) == ids[j]
        invariant forall j :: 0 <= j < i ==> BlockStored(elements, func, ids[j], cfg[j])
        invariant KeptBut(func, old(elements), elements)
        invariant forall f, b :: (f != func || forall j :: 0 <= j < i ==> cfg[j].id != b) ==>
                                 Lookup(elements, f, b) == Lookup(old(elements), f, b)
      {
        var cur := AddBlock(func, cfg[i]);
        ids := ids + [cur];
      }
    }
  }

  predicate GoalsStored(elements: Elements, block: Id, ids: seq<Id>, goals: seq<Operator>) {
    |ids| == |goals| && forall j :: 0 <= j < |ids| ==> ids[j] in elements && elements[ids[j]] == SummaryElement(block, goals[j])
  }

  predicate BlockStored(elements: Elements, func: Id, id: Id, block: CfgBlock) {
    && id in elements && elements[id].BlockElement? && elements[id].func == func && elements[id].internalId == block.id
    && GoalsStored(elements, id, elements[id].summaries, block.goals)
  }

  /** Every element but that of the function stays as it is. */
  predicate KeptBut(func: Id, was: Elements, elements: Elements) {
    forall id :: id in was && id != func ==> id in elements && elements[id] == was[id]
  }
}
