/** The least-recently-used cache (fuzzer/lrucache.h): a list of entries, newest first, and a map from
    keys to list nodes. The class is proved against a function on the plain list of entries; that
    function is then shown to keep exactly the most recently used keys with their last values. */
module LruCache {
  import opened Prelude

  datatype Entry<+K, +V> = Entry(key: K, value: V)

  // ---------------------------------------------------------------- the list, as a value

  /** The list without the entry of key k. */
  function Without<K(==), V>(s: seq<Entry<K, V>>, k: K): seq<Entry<K, V>> {
    if s == [] then [] else (if s[0].key == k then [] else [s[0]]) + Without(s[1..], k)
  }

  predicate Has<K(==), V>(s: seq<Entry<K, V>>, k: K) {
    exists i :: 0 <= i < |s| && s[i].key == k
  }

  predicate DistinctKeys<K(==), V>(s: seq<Entry<K, V>>) {
    forall i, j :: 0 <= i < j < |s| ==> s[i].key != s[j].key
  }

  function Take<T>(s: seq<T>, n: nat): seq<T> { if |s| <= n then s else s[..n] }

  function AfterPut<K(==), V>(s: seq<Entry<K, V>>, cap: nat, k: K, v: V): seq<Entry<K, V>> {
    Take([Entry(k, v)] + Without(s, k), cap)
  }

  lemma HasInTail<K, V>(s: seq<Entry<K, V>>, k: K)
    requires s != [] && s[0].key != k
    ensures Has(s[1..], k) <==> Has(s, k)
  {
    if Has(s, k) {
      var i :| 0 <= i < |s| && s[i].key == k;
      assert s[1..][i - 1].key == k;
    }
    if Has(s[1..], k) {
      var i :| 0 <= i < |s| - 1 && s[1..][i].key == k;
      assert s[i + 1].key == k;
    }
  }

  function Find<K(==), V>(s: seq<Entry<K, V>>, k: K): (r: Option<V>)
    ensures r.Some? <==> Has(s, k)
    ensures r.Some? ==> Entry(k, r.value) in s
  {
    if s == [] then None
    else if s[0].key == k then assert s[0] == Entry(k, s[0].value); Some(s[0].value)
    else
      var r := Find(s[1..], k);
      HasInTail(s, k);
      r
  }

  function AfterGet<K(==), V>(s: seq<Entry<K, V>>, k: K): seq<Entry<K, V>> {
    var v := Find(s, k);
    if v.None? then s else [Entry(k, v.value)] + Without(s, k)
  }

  lemma {:induction false} WithoutKeeps<K, V>(s: seq<Entry<K, V>>, k: K, e: Entry<K, V>)
    ensures e in Without(s, k) <==> e in s && e.key != k
    ensures |Without(s, k)| <= |s|
    decreases |s|
  {
    if s != [] {
      WithoutKeeps(s[1..], k, e);
      assert s == [s[0]] + s[1..];
    }
  }

  /** With distinct keys, exactly the entry at position i disappears. */
  lemma {:induction false} WithoutAt<K, V>(s: seq<Entry<K, V>>, i: nat)
    requires i < |s| && DistinctKeys(s)
    ensures Without(s, s[i].key) == s[..i] + s[i + 1..] == Erased(s, i)
    decreases |s|
  {
    if i == 0 {
      WithoutNone(s[1..], s[0].key);
      assert s[..0] + s[1..] == s[1..];
    } else {
      WithoutAt(s[1..], i - 1);
      assert s[..i] + s[i + 1..] == [s[0]] + (s[1..][..i - 1] + s[1..][i..]);
    }
  }

  lemma {:induction false} WithoutNone<K, V>(s: seq<Entry<K, V>>, k: K)
    requires !Has(s, k)
    ensures Without(s, k) == s
    decreases |s|
  {
    if s != [] {
      assert s[0].key != k;
      assert forall i :: 0 <= i < |s| - 1 ==> s[1..][i] == s[i + 1];
      WithoutNone(s[1..], k);
      assert s == [s[0]] + s[1..];
    }
  }

  lemma FindAt<K, V>(s: seq<Entry<K, V>>, i: nat)
    requires i < |s| && DistinctKeys(s)
    ensures Find(s, s[i].key) == Some(s[i].value)
  {
    var v := Find(s, s[i].key).value;
    var j :| 0 <= j < |s| && s[j] == Entry(s[i].key, v);
    assert !(i < j) && !(j < i);
  }

  // ---------------------------------------------------------------- list and map

  /** A list node; its id plays the part of the stable iterator that the map holds. */
  datatype Node<+K, +V> = Node(id: nat, key: K, value: V)

  function Entries<K, V>(items: seq<Node<K, V>>): (s: seq<Entry<K, V>>)
    ensures |s| == |items| && forall i :: 0 <= i < |s| ==> s[i] == Entry(items[i].key, items[i].value)
  {
    seq(|items|, i requires 0 <= i < |items| => Entry(items[i].key, items[i].value))
  }

  predicate Listed<K(==), V>(items: seq<Node<K, V>>, k: K) {
    exists i :: 0 <= i < |items| && items[i].key == k
  }

  /** The same keys in both, each mapped to its own node. */
  ghost predicate Agree<K, V>(items: seq<Node<K, V>>, index: map<K, nat>, nextId: nat) {
    && (forall i :: 0 <= i < |items| ==> items[i].id < nextId && items[i].key in index && index[items[i].key] == items[i].id)
    && (forall i, j :: 0 <= i < j < |items| ==> items[i].id != items[j].id && items[i].key != items[j].key)
    && (forall k :: k in index ==> Listed(items, k))
  }

  function Erased<T>(s: seq<T>, i: nat): (r: seq<T>)
    requires i < |s|
    ensures |r| == |s| - 1 && forall j :: 0 <= j < |r| ==> r[j] == s[if j < i then j else j + 1]
  {
    s[..i] + s[i + 1..]
  }

  lemma EraseLinks<K, V>(items: seq<Node<K, V>>, index: map<K, nat>, nextId: nat, i: nat)
    requires Agree(items, index, nextId) && i < |items|
    ensures var rest := Erased(items, i);
            && (forall j :: 0 <= j < |rest| ==> rest[j].id != items[i].id && rest[j].key != items[i].key)
            && (forall j, l :: 0 <= j < l < |rest| ==> rest[j].id != rest[l].id && rest[j].key != rest[l].key)
  {
    hide Erased;
    var rest := Erased(items, i);
    forall j, l | 0 <= j < l < |rest| ensures rest[j].id != rest[l].id && rest[j].key != rest[l].key {
      assert rest[j] == items[if j < i then j else j + 1] && rest[l] == items[if l < i then l else l + 1];
    }
  }

  lemma EraseListed<K, V>(items: seq<Node<K, V>>, i: nat, k: K)
    requires i < |items| && items[i].key != k && Listed(items, k)
    ensures Listed(Erased(items, i), k)
  {
    hide Erased;
    var j :| 0 <= j < |items| && items[j].key == k;
    assert Erased(items, i)[if j < i then j else j - 1].key == k;
  }

  lemma EraseAgrees<K, V>(items: seq<Node<K, V>>, index: map<K, nat>, nextId: nat, i: nat)
    requires Agree(items, index, nextId) && i < |items|
    ensures Agree(Erased(items, i), index - {items[i].key}, nextId)
    ensures forall j :: 0 <= j < |items| - 1 ==> Erased(items, i)[j].id != items[i].id
  {
    hide Erased, Listed;
    EraseLinks(items, index, nextId, i);
    forall k | k in index && k != items[i].key ensures Listed(Erased(items, i), k) {
      EraseListed(items, i, k);
    }
  }

  lemma EraseEntries<K, V>(items: seq<Node<K, V>>, index: map<K, nat>, nextId: nat, i: nat)
    requires Agree(items, index, nextId) && i < |items|
    ensures Entries(Erased(items, i)) == Without(Entries(items), items[i].key)
    ensures Find(Entries(items), items[i].key) == Some(items[i].value)
  {
    var s := Entries(items);
    WithoutAt(s, i);
    FindAt(s, i);
    assert Entries(Erased(items, i)) == s[..i] + s[i + 1..];
  }

  lemma PushAgrees<K, V>(items: seq<Node<K, V>>, index: map<K, nat>, nextId: nat, node: Node<K, V>, next: nat)
    requires Agree(items, index, nextId) && node.key !in index && node.id < next && nextId <= next
    requires forall j :: 0 <= j < |items| ==> items[j].id != node.id
    ensures Agree([node] + items, index[node.key := node.id], next)
    ensures Entries([node] + items) == [Entry(node.key, node.value)] + Entries(items)
  {
    var all := [node] + items;
    forall q | q in index[node.key := node.id] ensures Listed(all, q) {
      if q == node.key { assert all[0].key == q; } else {
        var j :| 0 <= j < |items| && items[j].key == q;
        assert all[j + 1].key == q;
      }
    }
  }

  lemma EvictAgrees<K, V>(items: seq<Node<K, V>>, index: map<K, nat>, nextId: nat)
    requires Agree(items, index, nextId) && items != []
    ensures var n := |items| - 1;
            && Agree(items[..n], index - {items[n].key}, nextId)
            && Entries(items[..n]) == Entries(items)[..n]
  {
    var n := |items| - 1;
    forall k | k in index && k != items[n].key ensures Listed(items[..n], k) {
      var j :| 0 <= j < |items| && items[j].key == k;
      assert items[..n][j].key == k;
    }
  }

  /** Splicing a node to the front changes no link of the map. */
  lemma SpliceAgrees<K, V>(items: seq<Node<K, V>>, index: map<K, nat>, nextId: nat, i: nat)
    requires Agree(items, index, nextId) && i < |items|
    ensures Agree([items[i]] + Erased(items, i), index, nextId)
    ensures Entries([items[i]] + Erased(items, i)) == AfterGet(Entries(items), items[i].key)
    ensures Find(Entries(items), items[i].key) == Some(items[i].value)
  {
    EraseAgrees(items, index, nextId, i);
    EraseEntries(items, index, nextId, i);
    assert (index - {items[i].key})[items[i].key := items[i].id] == index by { assert index[items[i].key] == items[i].id; }
    hide Agree, Erased, Entries, Without, Find;
    PushAgrees(Erased(items, i), index - {items[i].key}, nextId, items[i], nextId) by { NodeBelow(items, index, nextId, i); }
  }

  lemma NodeBelow<K, V>(items: seq<Node<K, V>>, index: map<K, nat>, nextId: nat, i: nat)
    requires Agree(items, index, nextId) && i < |items|
    ensures items[i].id < nextId && items[i].key in index
  {
  }

  lemma {:induction false} SizesAgree<K, V>(items: seq<Node<K, V>>, index: map<K, nat>, nextId: nat)
    requires Agree(items, index, nextId)
    ensures |index| == |items|
    decreases |items|
  {
    if items == [] {
      assert index == map[];
    } else {
      EvictAgrees(items, index, nextId);
      var n := |items| - 1;
      SizesAgree(items[..n], index - {items[n].key}, nextId);
      assert index.Keys == (index - {items[n].key}).Keys + {items[n].key};
    }
  }

  lemma KeysAgree<K, V>(items: seq<Node<K, V>>, index: map<K, nat>, nextId: nat, k: K)
    requires Agree(items, index, nextId)
    ensures k in index <==> Has(Entries(items), k)
  {
    if k in index {
      var i :| 0 <= i < |items| && items[i].key == k;
      assert Entries(items)[i].key == k;
    }
    if Has(Entries(items), k) {
      var i :| 0 <= i < |items| && Entries(items)[i].key == k;
      assert items[i].key in index;
    }
  }

  /** Following an iterator: where the node with this id is. */
  function Position<K, V>(items: seq<Node<K, V>>, id: nat): (i: nat)
    requires exists i :: 0 <= i < |items| && items[i].id == id
    ensures i < |items| && items[i].id == id
  {
    if items[0].id == id then 0 else
    assert exists j :: 0 <= j < |items[1..]| && items[1..][j].id == id by {
      var i :| 0 <= i < |items| && items[i].id == id;
      assert items[1..][i - 1].id == id;
    }
    1 + Position(items[1..], id)
  }

  lemma Follow<K, V>(items: seq<Node<K, V>>, index: map<K, nat>, nextId: nat, k: K)
    requires Agree(items, index, nextId) && k in index
    ensures exists i :: 0 <= i < |items| && items[i].id == index[k]
    ensures items[Position(items, index[k])].key == k
  {
    var i :| 0 <= i < |items| && items[i].key == k;
    assert items[i].id == index[k];
    var j := Position(items, index[k]);
    assert !(i < j) && !(j < i);
  }

  // ---------------------------------------------------------------- the cache

  class Cache<K(==), V> {
    const maxSize: nat
    var items: seq<Node<K, V>>
    var index: map<K, nat>
    var nextId: nat

    ghost predicate Valid()
      reads this
    {
      Agree(items, index, nextId) && |items| <= maxSize
    }

    ghost function Contents(): seq<Entry<K, V>>
      reads this
    {
      Entries(items)
    }

    constructor (maxSize: nat)
      ensures Valid() && Contents() == [] && this.maxSize == maxSize
    {
      this.maxSize := maxSize;
      items, index, nextId := [], map[], 0;
    }

    predicate Exists(k: K)
      requires Valid()
      reads this
      ensures Exists(k) <==> Has(Contents(), k)
    {
      KeysAgree(items, index, nextId, k);
      k in index
    }

    /** The first half of put: erase the entry of k from list and map. */
    method Erase(k: K)
      requires Valid()
      modifies this
      ensures Valid() && k !in index && |items| <= old(|items|)
      ensures Contents() == Without(old(Contents()), k)
    {
      hide Agree, Erased, Entries, Without;
      KeysAgree(items, index, nextId, k);
      if k in index {
        Follow(items, index, nextId, k);
        var i := Position(items, index[k]);
        EraseAgrees(items, index, nextId, i);
        EraseEntries(items, index, nextId, i);
        ErasedSize(items, i);
        items, index := Erased(items, i), index - {k};
      } else {
        WithoutNone(Contents(), k);
      }
    }

    method Put(k: K, v: V)
      requires Valid()
      modifies this
      ensures Valid()
      ensures Contents() == AfterPut(old(Contents()), maxSize, k, v)
    {
      hide Agree, Entries, Without;
      Erase(k);
      NextIsFresh(items, index, nextId);
      PushAgrees(items, index, nextId, Node(nextId, k, v), nextId + 1);
      items, index, nextId := [Node(nextId, k, v)] + items, index[k := nextId], nextId + 1;
      SizesAgree(items, index, nextId);
      if |index| > maxSize {
        var last := |items| - 1;
        EvictAgrees(items, index, nextId);
        items, index := items[..last], index - {items[last].key};
      }
      EntriesSize(items);
    }

    method CopyGet(k: K) returns (r: Option<V>)
      requires Valid()
      modifies this
      ensures Valid()
      ensures r == Find(old(Contents()), k)
      ensures Contents() == AfterGet(old(Contents()), k)
    {
      hide Agree, Erased;
      KeysAgree(items, index, nextId, k);
      if k !in index {
        return None;
      }
      Follow(items, index, nextId, k);
      var i := Position(items, index[k]);
      SpliceAgrees(items, index, nextId, i);
      items := [items[i]] + Erased(items, i);
      r := Some(items[0].value);
    }
  }

  lemma NextIsFresh<K, V>(items: seq<Node<K, V>>, index: map<K, nat>, nextId: nat)
    requires Agree(items, index, nextId)
    ensures forall j :: 0 <= j < |items| ==> items[j].id != nextId
  {
  }

  lemma ErasedSize<T>(s: seq<T>, i: nat)
    requires i < |s|
    ensures |Erased(s, i)| < |s|
  {
  }

  lemma EntriesSize<K, V>(items: seq<Node<K, V>>)
    ensures |Entries(items)| == |items|
  {
  }

  // ---------------------------------------------------------------- what is in the cache after a history

  datatype Op<+K, +V> = PutOp(key: K, value: V) | GetOp(key: K)

  function Apply<K(==), V>(s: seq<Entry<K, V>>, cap: nat, o: Op<K, V>): seq<Entry<K, V>> {
    match o
    case PutOp(k, v) => AfterPut(s, cap, k, v)
    case GetOp(k) => AfterGet(s, k)
  }

  /** The contents of a cache of the given capacity after a history of calls. */
  function Bounded<K(==), V>(h: seq<Op<K, V>>, cap: nat): seq<Entry<K, V>> {
    if h == [] then [] else Apply(Bounded(h[..|h| - 1], cap), cap, h[|h| - 1])
  }

  /** The same history with room for everything: all keys, the most recently used first. */
  function Recent<K(==), V>(h: seq<Op<K, V>>): seq<Entry<K, V>> {
    if h == [] then [] else
    var s := Recent(h[..|h| - 1]);
    match h[|h| - 1]
    case PutOp(k, v) => [Entry(k, v)] + Without(s, k)
    case GetOp(k) => AfterGet(s, k)
  }

  /** Callers look before they get: every get finds its key. */
  predicate Hits<K(==), V>(h: seq<Op<K, V>>, cap: nat) {
    h == [] || (Hits(h[..|h| - 1], cap) && (h[|h| - 1].GetOp? ==> Has(Bounded(h[..|h| - 1], cap), h[|h| - 1].key)))
  }

  function LastPut<K(==), V>(h: seq<Op<K, V>>, k: K): Option<V> {
    if h == [] then None
    else if h[|h| - 1].PutOp? && h[|h| - 1].key == k then Some(h[|h| - 1].value)
    else LastPut(h[..|h| - 1], k)
  }

  /** When k was last used; 0 for never. */
  function LastUse<K(==), V>(h: seq<Op<K, V>>, k: K): (n: nat)
    ensures n <= |h|
  {
    if h == [] then 0 else if h[|h| - 1].key == k then |h| else LastUse(h[..|h| - 1], k)
  }

  lemma {:induction false} WithoutDistinct<K, V>(s: seq<Entry<K, V>>, k: K)
    requires DistinctKeys(s)
    ensures DistinctKeys(Without(s, k)) && !Has(Without(s, k), k)
  {
    if Has(s, k) {
      var i :| 0 <= i < |s| && s[i].key == k;
      WithoutAt(s, i);
      assert Without(s, k) == Erased(s, i);
    } else {
      WithoutNone(s, k);
    }
  }

  lemma FindFront<K, V>(s: seq<Entry<K, V>>, k: K, v: V, q: K)
    requires DistinctKeys(s)
    ensures Find([Entry(k, v)] + Without(s, k), q) == if q == k then Some(v) else Find(s, q)
    ensures DistinctKeys([Entry(k, v)] + Without(s, k))
  {
    var t := [Entry(k, v)] + Without(s, k);
    WithoutDistinct(s, k);
    assert DistinctKeys(t) by {
      forall i, j | 0 <= i < j < |t| ensures t[i].key != t[j].key {
        if i == 0 { assert Without(s, k)[j - 1].key != k; }
      }
    }
    if q == k {
      FindAt(t, 0);
    } else if Has(s, q) {
      var i :| 0 <= i < |s| && s[i].key == q;
      FindAt(s, i);
      WithoutKeeps(s, k, s[i]);
      assert s[i] in t;
      var j :| 0 <= j < |t| && t[j] == s[i];
      FindAt(t, j);
    } else {
      HasFront(s, k, v, q);
    }
  }

  lemma HasFront<K, V>(s: seq<Entry<K, V>>, k: K, v: V, q: K)
    ensures Has([Entry(k, v)] + Without(s, k), q) ==> q == k || Has(s, q)
  {
    var t := [Entry(k, v)] + Without(s, k);
    if Has(t, q) && q != k {
      var j :| 0 <= j < |t| && t[j].key == q;
      WithoutKeeps(s, k, t[j]);
      assert t[j] in Without(s, k);
      var i :| 0 <= i < |s| && s[i] == t[j];
    }
  }

  lemma {:induction false} LastUseBefore<K, V>(h: seq<Op<K, V>>, s: seq<Entry<K, V>>, k: K)
    requires h != [] && h[|h| - 1].key == k && DistinctKeys(s)
    requires forall i, j :: 0 <= i < j < |s| ==> LastUse(h[..|h| - 1], s[i].key) > LastUse(h[..|h| - 1], s[j].key)
    ensures var t := Without(s, k);
            forall i, j :: 0 <= i < j < |t| ==> LastUse(h, t[i].key) > LastUse(h, t[j].key)
    ensures forall j :: 0 <= j < |Without(s, k)| ==> LastUse(h, Without(s, k)[j].key) < |h|
  {
    var t := Without(s, k);
    WithoutDistinct(s, k);
    forall j | 0 <= j < |t| ensures LastUse(h, t[j].key) == LastUse(h[..|h| - 1], t[j].key) < |h| {
      assert t[j].key != k;
    }
    if Has(s, k) {
      var i :| 0 <= i < |s| && s[i].key == k;
      WithoutAt(s, i);
      assert t == Erased(s, i);
    } else {
      WithoutNone(s, k);
    }
  }

  /** What Recent lists: each key once, with the value it was last put with, ordered by last use. */
  lemma {:induction false} RecentMeaning<K, V>(h: seq<Op<K, V>>)
    ensures DistinctKeys(Recent(h))
    ensures forall k :: Find(Recent(h), k) == LastPut(h, k)
    ensures forall i, j :: 0 <= i < j < |Recent(h)| ==> LastUse(h, Recent(h)[i].key) > LastUse(h, Recent(h)[j].key)
    decreases |h|
  {
    if h == [] { return; }
    var before := h[..|h| - 1];
    var s, o := Recent(before), h[|h| - 1];
    RecentMeaning(before);
    var v := if o.PutOp? then Some(o.value) else Find(s, o.key);
    if v.Some? {
      forall k ensures Find(Recent(h), k) == LastPut(h, k) { FindFront(s, o.key, v.value, k); }
      FindFront(s, o.key, v.value, o.key);
      LastUseBefore(h, s, o.key);
    } else {
      forall i | 0 <= i < |s| ensures LastUse(h, s[i].key) == LastUse(before, s[i].key) {
        assert s[i].key != o.key;
      }
    }
  }

  lemma TakeErased<T>(s: seq<T>, cap: nat, e: T, i: nat)
    requires i < |s|
    ensures i < cap ==> Take([e] + Erased(Take(s, cap), i), cap) == Take([e] + Erased(s, i), cap)
    ensures i >= cap ==> Take([e] + Take(s, cap), cap) == Take([e] + Erased(s, i), cap)
    ensures Take([e] + Take(s, cap), cap) == Take([e] + s, cap)
  {
  }

  lemma TakeWithout<K, V>(s: seq<Entry<K, V>>, cap: nat, e: Entry<K, V>)
    requires DistinctKeys(s)
    ensures Take([e] + Without(Take(s, cap), e.key), cap) == Take([e] + Without(s, e.key), cap)
    ensures Has(Take(s, cap), e.key) ==> |[e] + Without(Take(s, cap), e.key)| <= cap
  {
    var t, k := Take(s, cap), e.key;
    if Has(t, k) {
      var i :| 0 <= i < |t| && t[i].key == k;
      WithoutAt(t, i);
      WithoutAt(s, i);
      TakeErased(s, cap, e, i);
    } else {
      WithoutNone(t, k);
      if Has(s, k) {
        var i :| 0 <= i < |s| && s[i].key == k;
        forall j | 0 <= j < |t| ensures s[j].key != k { assert t[j] == s[j]; }
        WithoutAt(s, i);
        TakeErased(s, cap, e, i);
      } else {
        WithoutNone(s, k);
        if s != [] { TakeErased(s, cap, e, 0); }
      }
    }
  }

  lemma FindInTake<K, V>(s: seq<Entry<K, V>>, cap: nat, k: K)
    requires DistinctKeys(s) && Has(Take(s, cap), k)
    ensures Find(Take(s, cap), k) == Find(s, k)
  {
    var t := Take(s, cap);
    var i :| 0 <= i < |t| && t[i].key == k;
    FindAt(t, i);
    FindAt(s, i);
  }

  /** For every capacity and history: the cache holds exactly the most recently used keys. */
  lemma {:induction false} HoldsMostRecent<K, V>(h: seq<Op<K, V>>, cap: nat)
    requires Hits(h, cap)
    ensures Bounded(h, cap) == Take(Recent(h), cap)
    decreases |h|
  {
    if h == [] { return; }
    var before, o := h[..|h| - 1], h[|h| - 1];
    var s := Recent(before);
    HoldsMostRecent(before, cap);
    RecentMeaning(before);
    match o
    case PutOp(k, v) => TakeWithout(s, cap, Entry(k, v));
    case GetOp(k) =>
      FindInTake(s, cap, k);
      TakeWithout(s, cap, Entry(k, Find(s, k).value));
  }
}
