/** Looking blocks up through the cache (fuzzer/knowledge.cpp, ProgramKnowledge). */
module Knowledge {
  import opened Prelude
  import opened Store
  import opened LruCache

  class ProgramKnowledge {
    const elements: Elements
    const cache: Cache<(Id, nat), Id>

    /** Every cached answer is the uncached one. */
    ghost predicate Valid()
      reads this, cache
    {
      && cache.Valid() && WellBuilt(elements)
      && forall e :: e in cache.Contents() ==> e.value == Lookup(elements, e.key.0, e.key.1)
    }

    constructor (elements: Elements, capacity: nat)
      requires WellBuilt(elements)
      ensures Valid() && fresh(cache) && this.elements == elements && cache.maxSize == capacity
    {
      this.elements := elements;
      this.cache := new Cache(capacity);
    }

    method Remember(func: Id, block: nat, id: Id)
      requires Valid() && id == Lookup(elements, func, block)
      modifies cache
      ensures Valid()
    {
      ghost var before := cache.Contents();
      cache.Put((func, block), id);
      forall e | e in cache.Contents() ensures e.value == Lookup(elements, e.key.0, e.key.1) {
        PutKeeps(before, cache.maxSize, (func, block), id, e);
      }
    }

    /** Whatever was asked before and whatever was evicted, the answer is the uncached one. */
    method GetBlockElement(func: Id, block: nat) returns (id: Id)
      requires Valid()
      modifies cache
      ensures Valid()
      ensures id == Lookup(elements, func, block)
    {
      var key := (func, block);
      if cache.Exists(key) {
        ghost var before := cache.Contents();
        var hit := cache.CopyGet(key);
        forall e | e in cache.Contents() ensures e in before { GetKeeps(before, key, e); }
        return hit.value;
      }
      if func !in elements {
        return ERROR_ID;
      }
      if !elements[func].FunctionElement? {
        Remember(func, block, ERROR_ID);
        return ERROR_ID;
      }
      var ids := elements[func].blocks;
      var i := 0;
      while i < |ids|
        invariant 0 <= i <= |ids| && Valid()
        invariant FirstBlock(elements, ids, block) == FirstBlock(elements, ids[i..], block)
      {
        if elements[ids[i]].internalId == block {
          Remember(func, block, ids[i]);
          return ids[i];
        }
        assert ids[i..][1..] == ids[i + 1..];
        i := i + 1;
      }
      Remember(func, block, ERROR_ID);
      id := ERROR_ID;
    }
  }

  /** An entry after a put is the new one or an old one. */
  lemma PutKeeps<K, V>(s: seq<Entry<K, V>>, cap: nat, k: K, v: V, e: Entry<K, V>)
    requires e in AfterPut(s, cap, k, v)
    ensures e == Entry(k, v) || e in s
  {
    WithoutKeeps(s, k, e);
    assert e in [Entry(k, v)] + Without(s, k);
  }

  lemma GetKeeps<K, V>(s: seq<Entry<K, V>>, k: K, e: Entry<K, V>)
    requires e in AfterGet(s, k)
    ensures e in s
  {
    WithoutKeeps(s, k, e);
  }
}
