/** The bounded set of best individuals (Population::best_individuals_t in fuzzer/evolution.cpp). An individual is
    its bytes: the slot of a stored one is never written again, since mutators edit fresh clones. */
module BestSet {
  import opened Measure
  import opened Prelude
  import opened Words
  import Murmur3

  type Input = d: seq<Byte> | |d| < 0x8000_0000

  datatype Entry = Entry(score: Measure, data: Input)

  datatype Best = Best(maxSize: nat, minKey: Measure, maxKey: Measure, hashes: set<Murmur3.Lanes>, container: seq<Entry>)

  const TOP: Part := U32 - 1

  /** Where the scan for the lowest key starts. */
  const SENTINEL := Measure(Score(TOP, TOP), Score(TOP, TOP), TOP)

  function HashOf(d: Input): Murmur3.Lanes { Murmur3.Hash(d, 0) }

  predicate AtMost(a: Measure, b: Measure) { !Less(b, a) }

  /** What Measure.StrictWeakOrder says about "not greater". */
  lemma Through(a: Measure, b: Measure, c: Measure)
    requires AtMost(a, b) && AtMost(b, c)
    ensures AtMost(a, c)
  {
    StrictWeakOrder(c, b, a);
  }

  lemma LessThrough(a: Measure, b: Measure)
    requires Less(a, b)
    ensures AtMost(a, b)
  {
    StrictWeakOrder(a, b, a);
  }

  // ---------------------------------------------------------------- the ordered container (std::multimap)

  /** Sorted by operator<; equivalent keys stay in the order of insertion. */
  predicate Sorted(c: seq<Entry>) {
    forall i, j :: 0 <= i < j < |c| ==> AtMost(c[i].score, c[j].score)
  }

  function Place(c: seq<Entry>, score: Measure): (p: nat)
    ensures p <= |c|
  {
    if c == [] || Less(score, c[0].score) then 0 else 1 + Place(c[1..], score)
  }

  function With(c: seq<Entry>, e: Entry): seq<Entry> {
    var p := Place(c, e.score);
    c[..p] + [e] + c[p..]
  }

  function Without(c: seq<Entry>, i: nat): seq<Entry>
    requires i < |c|
  {
    c[..i] + c[i + 1..]
  }

  lemma {:induction false} PlaceSplits(c: seq<Entry>, score: Measure)
    requires Sorted(c)
    ensures forall i :: 0 <= i < Place(c, score) ==> AtMost(c[i].score, score)
    ensures forall i :: Place(c, score) <= i < |c| ==> AtMost(score, c[i].score)
  {
    hide Less;
    if c == [] {
    } else if Less(score, c[0].score) {
      LessThrough(score, c[0].score);
      forall i | 0 <= i < |c| ensures AtMost(score, c[i].score) {
        if i > 0 { Through(score, c[0].score, c[i].score); }
      }
    } else {
      PlaceSplits(c[1..], score);
      forall i | 0 <= i < Place(c, score) ensures AtMost(c[i].score, score) {
        if i > 0 { assert c[i] == c[1..][i - 1]; }
      }
      forall i | Place(c, score) <= i < |c| ensures AtMost(score, c[i].score) {
        assert c[i] == c[1..][i - 1];
      }
    }
  }

  lemma WithSorted(c: seq<Entry>, e: Entry)
    requires Sorted(c)
    ensures Sorted(With(c, e)) && multiset(With(c, e)) == multiset(c) + multiset{e}
  {
    hide AtMost, Place;
    PlaceSplits(c, e.score);
    var p := Place(c, e.score);
    assert c == c[..p] + c[p..];
  }

  lemma WithoutSorted(c: seq<Entry>, i: nat)
    requires Sorted(c) && i < |c|
    ensures Sorted(Without(c, i)) && multiset(Without(c, i)) == multiset(c) - multiset{c[i]}
  {
    hide AtMost;
    assert c == c[..i] + [c[i]] + c[i + 1..];
  }

  /** consolidate_min_key: the lowest stored key, or the sentinel when nothing lies below it. */
  function Lowest(c: seq<Entry>): Measure {
    if c == [] then SENTINEL
    else var m := Lowest(c[..|c| - 1]); if Less(c[|c| - 1].score, m) then c[|c| - 1].score else m
  }

  lemma {:induction false} LowestIsLowest(c: seq<Entry>)
    ensures AtMost(Lowest(c), SENTINEL)
    ensures forall i :: 0 <= i < |c| ==> AtMost(Lowest(c), c[i].score)
    ensures Lowest(c) == SENTINEL || exists i :: 0 <= i < |c| && c[i].score == Lowest(c)
  {
    hide Less;
    if c == [] {
      StrictWeakOrder(SENTINEL, SENTINEL, SENTINEL);
    } else {
      var front, last := c[..|c| - 1], c[|c| - 1].score;
      LowestIsLowest(front);
      StrictWeakOrder(last, last, last);
      if Less(last, Lowest(front)) {
        LessThrough(last, Lowest(front));
        Through(last, Lowest(front), SENTINEL);
        forall i | 0 <= i < |c| ensures AtMost(last, c[i].score) {
          if i < |c| - 1 { assert c[i] == front[i]; Through(last, Lowest(front), c[i].score); }
        }
      } else {
        forall i | 0 <= i < |c| ensures AtMost(Lowest(front), c[i].score) {
          if i < |c| - 1 { assert c[i] == front[i]; }
        }
        if Lowest(front) != SENTINEL {
          var i :| 0 <= i < |front| && front[i].score == Lowest(front);
          assert c[i].score == Lowest(c);
        }
      }
    }
  }

  // ---------------------------------------------------------------- insert, as a function

  ghost function HashesOf(c: seq<Entry>): set<Murmur3.Lanes> {
    set e | e in c :: HashOf(e.data)
  }

  /** What a search for the lowest key can find: some entry equivalent to it, or nothing when there is none. */
  predicate Found(b: Best, victim: Option<nat>) {
    match victim
    case Some(i) => i < |b.container| && Equivalent(b.container[i].score, b.minKey)
    case None => forall i :: 0 <= i < |b.container| ==> !Equivalent(b.container[i].score, b.minKey)
  }

  function Evict(b: Best, victim: Option<nat>): Best {
    if victim.None? || victim.value >= |b.container| then b
    else b.(container := Without(b.container, victim.value),
            hashes := b.hashes - {HashOf(b.container[victim.value].data)})
  }

  predicate Full(b: Best) { |b.container| >= b.maxSize }

  predicate Duplicate(b: Best, e: Entry) { HashOf(e.data) in b.hashes }

  function After(b: Best, e: Entry, victim: Option<nat>): Best {
    if Duplicate(b, e) || (Full(b) && Less(e.score, b.minKey)) then b
    else if Full(b) then
      var r := Evict(b, victim);
      var c := With(r.container, e);
      Best(b.maxSize, Lowest(c), if Greater(e.score, b.maxKey) then e.score else b.maxKey, r.hashes + {HashOf(e.data)}, c)
    else
      Best(b.maxSize,
           if Less(e.score, b.minKey) then e.score else b.minKey,
           if !Less(e.score, b.minKey) && Greater(e.score, b.maxKey) then e.score else b.maxKey,
           b.hashes + {HashOf(e.data)}, With(b.container, e))
  }

  /** "Did we insert a best?" */
  predicate NewBest(b: Best, e: Entry) {
    !Duplicate(b, e) && !Less(e.score, b.minKey) && Greater(e.score, b.maxKey)
  }

  // ---------------------------------------------------------------- the invariant

  ghost predicate Distinct(c: seq<Entry>) {
    forall i, j :: 0 <= i < j < |c| ==> HashOf(c[i].data) != HashOf(c[j].data)
  }

  /** min_key is a lower bound of all stored scores. */
  predicate Bounds(key: Measure, c: seq<Entry>) {
    forall i :: 0 <= i < |c| ==> AtMost(key, c[i].score)
  }

  ghost predicate Inv(b: Best) {
    && Sorted(b.container) && Distinct(b.container) && b.hashes == HashesOf(b.container)
    && Bounds(b.minKey, b.container) && AtMost(b.minKey, SENTINEL)
  }

  lemma DistinctWith(c: seq<Entry>, e: Entry)
    requires Distinct(c) && HashOf(e.data) !in HashesOf(c)
    ensures Distinct(With(c, e)) && HashesOf(With(c, e)) == HashesOf(c) + {HashOf(e.data)}
  {
    hide HashOf, Place;
    var p, w := Place(c, e.score), With(c, e);
    forall x | x in c ensures x in w { assert c == c[..p] + c[p..]; }
    assert w[p] == e;
    forall i, j | 0 <= i < j < |w| ensures HashOf(w[i].data) != HashOf(w[j].data) {
      var i', j' := if i < p then i else i - 1, if j < p then j else j - 1;
      if i == p { assert w[j] == c[j'] && c[j'] in c; } else if j == p { assert w[i] == c[i'] && c[i'] in c; }
    }
  }

  lemma DistinctWithout(c: seq<Entry>, i: nat)
    requires Distinct(c) && i < |c|
    ensures Distinct(Without(c, i)) && HashesOf(Without(c, i)) == HashesOf(c) - {HashOf(c[i].data)}
  {
    hide HashOf;
    var w := Without(c, i);
    forall x | x in c && x != c[i] ensures x in w { assert c == c[..i] + [c[i]] + c[i + 1..]; }
    forall k | 0 <= k < |w| ensures HashOf(w[k].data) != HashOf(c[i].data) {
      assert w[k] == c[if k < i then k else k + 1];
    }
  }

  lemma BoundsWith(key: Measure, c: seq<Entry>, e: Entry)
    ensures Bounds(key, With(c, e)) <==> Bounds(key, c) && AtMost(key, e.score)
  {
    hide AtMost, Place;
    var p, w := Place(c, e.score), With(c, e);
    assert w[p] == e;
    if Bounds(key, w) {
      forall i | 0 <= i < |c| ensures AtMost(key, c[i].score) { assert c[i] == w[if i < p then i else i + 1]; }
    }
  }

  lemma BoundsLower(key: Measure, key': Measure, c: seq<Entry>)
    requires Bounds(key, c) && AtMost(key', key)
    ensures Bounds(key', c)
  {
    hide AtMost;
    forall i | 0 <= i < |c| ensures AtMost(key', c[i].score) { Through(key', key, c[i].score); }
  }

  lemma InvEvict(b: Best, victim: Option<nat>)
    requires Inv(b)
    ensures Inv(Evict(b, victim))
  {
    hide HashOf, AtMost, Equivalent;
    if victim.Some? && victim.value < |b.container| {
      WithoutSorted(b.container, victim.value);
      DistinctWithout(b.container, victim.value);
    }
  }

  lemma InvAfter(b: Best, e: Entry, victim: Option<nat>)
    requires Inv(b)
    ensures Inv(After(b, e, victim))
  {
    hide HashOf, AtMost, Equivalent, Less, With, Lowest, Evict, Sorted, Distinct, Bounds, HashesOf, Greater;
    var b' := After(b, e, victim);
    if Duplicate(b, e) || (Full(b) && Less(e.score, b.minKey)) {
    } else if Full(b) {
      InvEvict(b, victim);
      var r := Evict(b, victim);
      EvictedHashes(b, victim);
      WithSorted(r.container, e);
      DistinctWith(r.container, e);
      LowestBounds(With(r.container, e));
    } else {
      WithSorted(b.container, e);
      DistinctWith(b.container, e);
      LowerKey(b, e);
    }
  }

  lemma EvictedHashes(b: Best, victim: Option<nat>)
    requires Inv(b)
    ensures Evict(b, victim).hashes <= b.hashes
  {
  }

  lemma LowestBounds(c: seq<Entry>)
    ensures Bounds(Lowest(c), c) && AtMost(Lowest(c), SENTINEL)
  {
    hide AtMost;
    LowestIsLowest(c);
  }

  lemma LowerKey(b: Best, e: Entry)
    requires Inv(b)
    ensures var key := if Less(e.score, b.minKey) then e.score else b.minKey;
            Bounds(key, With(b.container, e)) && AtMost(key, SENTINEL)
  {
    hide Less, HashOf, HashesOf, Sorted, Distinct;
    var key := if Less(e.score, b.minKey) then e.score else b.minKey;
    BoundsWith(key, b.container, e);
    if Less(e.score, b.minKey) {
      LessThrough(e.score, b.minKey);
      BoundsLower(b.minKey, key, b.container);
      Through(key, b.minKey, SENTINEL);
      StrictWeakOrder(key, key, key);
    }
  }

  // ---------------------------------------------------------------- one insertion

  lemma EvictsAWorst(b: Best, i: nat, j: nat)
    requires Inv(b) && Found(b, Some(i)) && j < |b.container|
    ensures AtMost(b.container[i].score, b.container[j].score)
  {
    Through(b.container[i].score, b.minKey, b.container[j].score);
  }

  /** Once the set is full its threshold only rises. */
  lemma MinKeyRises(b: Best, e: Entry, victim: Option<nat>)
    requires Inv(b) && Full(b) && Found(b, victim)
    ensures AtMost(b.minKey, After(b, e, victim).minKey)
  {
    hide Less, HashOf, With, Lowest;
    StrictWeakOrder(b.minKey, b.minKey, b.minKey);
    if !Duplicate(b, e) && !Less(e.score, b.minKey) {
      InvEvict(b, victim);
      var r := Evict(b, victim);
      EvictBounds(b, victim);
      BoundsWith(b.minKey, r.container, e);
      LowestIsLowest(With(r.container, e));
    }
  }

  lemma EvictBounds(b: Best, victim: Option<nat>)
    requires Inv(b)
    ensures Bounds(b.minKey, Evict(b, victim).container)
  {
    hide AtMost, HashOf;
  }

  /** A full set grows exactly when it admits an individual and no stored key is equivalent to min_key. */
  lemma GrowsExactly(b: Best, e: Entry, victim: Option<nat>)
    requires Inv(b) && Full(b) && Found(b, victim)
    ensures |b.container| <= |After(b, e, victim).container| <= |b.container| + 1
    ensures |After(b, e, victim).container| == |b.container| + 1 <==>
            !Duplicate(b, e) && !Less(e.score, b.minKey)
            && forall i :: 0 <= i < |b.container| ==> !Equivalent(b.container[i].score, b.minKey)
  {
    hide HashOf, Less, Equivalent, Lowest;
  }

  /** After a scan, min_key is (equivalent to) a stored key exactly when some stored key is not above the sentinel. */
  lemma ScanFindsAKeyExactly(c: seq<Entry>)
    ensures (exists i :: 0 <= i < |c| && Equivalent(c[i].score, Lowest(c))) <==>
            (exists i :: 0 <= i < |c| && AtMost(c[i].score, SENTINEL))
  {
    hide Less, Lowest;
    LowestIsLowest(c);
    if i :| 0 <= i < |c| && AtMost(c[i].score, SENTINEL) {
      if Lowest(c) == SENTINEL {
        assert Equivalent(c[i].score, Lowest(c));
      } else {
        var k :| 0 <= k < |c| && c[k].score == Lowest(c);
        StrictWeakOrder(c[k].score, c[k].score, c[k].score);
        assert Equivalent(c[k].score, Lowest(c));
      }
    }
    if i :| 0 <= i < |c| && Equivalent(c[i].score, Lowest(c)) {
      Through(c[i].score, Lowest(c), SENTINEL);
    }
  }

  // ---------------------------------------------------------------- whole runs

  datatype Offer = Offer(entry: Entry, victim: Option<nat>)

  ghost predicate Allowed(b: Best, offers: seq<Offer>)
    decreases offers
  {
    offers == [] || (Found(b, offers[0].victim) && Allowed(After(b, offers[0].entry, offers[0].victim), offers[1..]))
  }

  function Run(b: Best, offers: seq<Offer>): Best
    decreases offers
  {
    if offers == [] then b else Run(After(b, offers[0].entry, offers[0].victim), offers[1..])
  }

  /** A fresh set: both keys hold zero scores, and lengths that the source leaves uninitialised. */
  function Start(maxSize: nat, minLength: nat, maxLength: nat): Best {
    Best(maxSize, Measure(Score(0, 0), Score(0, 0), minLength), Measure(Score(0, 0), Score(0, 0), maxLength), {}, [])
  }

  lemma InvStart(maxSize: nat, minLength: nat, maxLength: nat)
    ensures Inv(Start(maxSize, minLength, maxLength))
  {
    hide Norm;
    ZeroOnlyAtZero(Score(0, 0));
    ZeroOnlyAtZero(Score(TOP, TOP));
  }

  lemma {:induction false} InvRun(b: Best, offers: seq<Offer>)
    requires Inv(b) && Allowed(b, offers)
    ensures Inv(Run(b, offers))
    decreases offers
  {
    hide Inv, Found, After;
    if offers != [] {
      InvAfter(b, offers[0].entry, offers[0].victim);
      InvRun(After(b, offers[0].entry, offers[0].victim), offers[1..]);
    }
  }

  /** In every reachable state the hash set holds the hashes of what is stored, these are pairwise distinct, and
      min_key is a lower bound of the stored scores. */
  lemma ReachableStates(maxSize: nat, minLength: nat, maxLength: nat, offers: seq<Offer>)
    requires Allowed(Start(maxSize, minLength, maxLength), offers)
    ensures var b := Run(Start(maxSize, minLength, maxLength), offers);
            && b.hashes == HashesOf(b.container) && Distinct(b.container)
            && Sorted(b.container) && Bounds(b.minKey, b.container)
  {
    InvStart(maxSize, minLength, maxLength);
    InvRun(Start(maxSize, minLength, maxLength), offers);
  }

  ghost predicate Kept(b: Best, x: Entry) {
    x in b.container || (Full(b) && AtMost(x.score, b.minKey))
  }

  lemma KeptWhenOffered(b: Best, e: Entry, victim: Option<nat>)
    requires Inv(b) && !Duplicate(b, e)
    ensures Kept(After(b, e, victim), e)
  {
    hide HashOf, Less, Lowest, Place;
    if Full(b) && Less(e.score, b.minKey) {
      LessThrough(e.score, b.minKey);
    } else {
      var r := if Full(b) then Evict(b, victim) else b;
      assert With(r.container, e)[Place(r.container, e.score)] == e;
    }
  }

  lemma KeptAfter(b: Best, x: Entry, e: Entry, victim: Option<nat>)
    requires Inv(b) && Found(b, victim) && Kept(b, x)
    ensures Kept(After(b, e, victim), x)
  {
    hide HashOf, Less, Lowest, Place, Inv;
    var b' := After(b, e, victim);
    if Duplicate(b, e) || (Full(b) && Less(e.score, b.minKey)) {
    } else if Full(b) {
      MinKeyRises(b, e, victim);
      GrowsExactly(b, e, victim);
      var r := Evict(b, victim);
      WithHolds(r.container, e);
      if x in b.container {
        if x !in r.container {
          EvictedIs(b, victim, x);
          Through(x.score, b.minKey, b'.minKey);
        }
      } else {
        Through(x.score, b.minKey, b'.minKey);
      }
    } else {
      WithHolds(b.container, e);
    }
  }

  lemma WithHolds(c: seq<Entry>, e: Entry)
    ensures forall x :: x in c ==> x in With(c, e)
  {
    hide Place;
    assert c == c[..Place(c, e.score)] + c[Place(c, e.score)..];
  }

  lemma EvictedIs(b: Best, victim: Option<nat>, x: Entry)
    requires Found(b, victim) && x in b.container && x !in Evict(b, victim).container
    ensures AtMost(x.score, b.minKey)
  {
    if victim.Some? {
      var i := victim.value;
      assert b.container == b.container[..i] + [b.container[i]] + b.container[i + 1..];
      assert x == b.container[i];
    }
  }

  /** The set keeps the best. After any further offers, an individual that was not a duplicate when it was offered
      is stored, or its score is at most every stored score. */
  lemma {:induction false} KeepsTheBest(b: Best, offers: seq<Offer>, x: Entry)
    requires Inv(b) && Kept(b, x) && Allowed(b, offers)
    ensures x in Run(b, offers).container ||
            forall i :: 0 <= i < |Run(b, offers).container| ==> AtMost(x.score, Run(b, offers).container[i].score)
    decreases offers
  {
    hide HashOf, Less, After, Found;
    if offers == [] {
      if x !in b.container {
        forall i | 0 <= i < |b.container| ensures AtMost(x.score, b.container[i].score) {
          Through(x.score, b.minKey, b.container[i].score);
        }
      }
    } else {
      var o := offers[0];
      InvAfter(b, o.entry, o.victim);
      KeptAfter(b, x, o.entry, o.victim);
      KeepsTheBest(After(b, o.entry, o.victim), offers[1..], x);
    }
  }

  lemma BestAreKept(maxSize: nat, minLength: nat, maxLength: nat, first: seq<Offer>, o: Offer, later: seq<Offer>)
    requires Allowed(Start(maxSize, minLength, maxLength), first)
    requires Allowed(Run(Start(maxSize, minLength, maxLength), first), [o] + later)
    requires !Duplicate(Run(Start(maxSize, minLength, maxLength), first), o.entry)
    ensures var b := Run(Run(Start(maxSize, minLength, maxLength), first), [o] + later);
            o.entry in b.container || forall i :: 0 <= i < |b.container| ==> AtMost(o.entry.score, b.container[i].score)
  {
    hide Inv, Found, After, Duplicate, Kept, AtMost;
    var b := Run(Start(maxSize, minLength, maxLength), first);
    InvStart(maxSize, minLength, maxLength);
    InvRun(Start(maxSize, minLength, maxLength), first);
    InvAfter(b, o.entry, o.victim);
    KeptWhenOffered(b, o.entry, o.victim);
    assert ([o] + later)[1..] == later;
    KeepsTheBest(After(b, o.entry, o.victim), later, o.entry);
  }

  // ---------------------------------------------------------------- how large the set gets

  ghost predicate InSize(b: Best) {
    && (forall i :: 0 <= i < |b.container| ==> AtMost(b.container[i].score, SENTINEL))
    && (|b.container| > b.maxSize ==>
          |b.container| == b.maxSize + 1 && exists i :: 0 <= i < |b.container| && Equivalent(b.container[i].score, b.minKey))
  }

  lemma InSizeAfter(b: Best, e: Entry, victim: Option<nat>)
    requires Inv(b) && InSize(b) && Found(b, victim) && AtMost(e.score, SENTINEL)
    ensures InSize(After(b, e, victim)) && After(b, e, victim).maxSize == b.maxSize
  {
    hide HashOf, AtMost, Equivalent, Lowest, Place, Less, Inv;
    if Duplicate(b, e) || (Full(b) && Less(e.score, b.minKey)) {
    } else {
      var r := if Full(b) then Evict(b, victim) else b;
      var c := With(r.container, e);
      forall i | 0 <= i < |c| ensures AtMost(c[i].score, SENTINEL) {
        var p := Place(r.container, e.score);
        if i != p { assert c[i] == r.container[if i < p then i else i - 1]; }
      }
      if Full(b) {
        assert AtMost(c[0].score, SENTINEL);
        ScanFindsAKeyExactly(c);
      }
    }
  }

  /** However many individuals are offered, with scores not above the sentinel, the set holds at most max_size + 1. */
  lemma {:induction false} AtMostOneTooMany(b: Best, offers: seq<Offer>)
    requires Inv(b) && InSize(b) && Allowed(b, offers)
    requires forall o :: o in offers ==> AtMost(o.entry.score, SENTINEL)
    ensures |Run(b, offers).container| <= b.maxSize + 1
    decreases offers
  {
    hide HashOf, AtMost, Equivalent, After, Inv, Found;
    if offers != [] {
      var o := offers[0];
      InvAfter(b, o.entry, o.victim);
      InSizeAfter(b, o.entry, o.victim);
      AtMostOneTooMany(After(b, o.entry, o.victim), offers[1..]);
    }
  }

  lemma SizeBound(maxSize: nat, minLength: nat, maxLength: nat, offers: seq<Offer>)
    requires Allowed(Start(maxSize, minLength, maxLength), offers)
    requires forall o :: o in offers ==> AtMost(o.entry.score, SENTINEL)
    ensures |Run(Start(maxSize, minLength, maxLength), offers).container| <= maxSize + 1
  {
    InvStart(maxSize, minLength, maxLength);
    AtMostOneTooMany(Start(maxSize, minLength, maxLength), offers);
  }

  // ---- what becomes of an offered individual, as seen from the container alone

  datatype Fate = Refused | Stored(at: nat) | InPlaceOf(gone: nat, at: nat)

  function Placed<T>(c: seq<T>, x: T, at: nat): seq<T> {
    var k := if at <= |c| then at else |c|;
    c[..k] + [x] + c[k..]
  }

  function Removed<T>(c: seq<T>, i: nat): seq<T> { if i < |c| then c[..i] + c[i + 1..] else c }

  function Fated<T>(c: seq<T>, x: T, f: Fate): seq<T> {
    match f
    case Refused => c
    case Stored(at) => Placed(c, x, at)
    case InPlaceOf(gone, at) => Placed(Removed(c, gone), x, at)
  }

  /** All of xs offered in their order. */
  function Registered<T>(c: seq<T>, xs: seq<T>, fates: seq<Fate>): seq<T>
    requires |fates| == |xs|
  {
    if xs == [] then c else
    var n := |xs| - 1;
    Fated(Registered(c, xs[..n], fates[..n]), xs[n], fates[n])
  }

  function FateOf(b: Best, e: Entry, victim: Option<nat>): Fate {
    if Duplicate(b, e) || (Full(b) && Less(e.score, b.minKey)) then Refused
    else if Full(b) && victim.Some? && victim.value < |b.container| then
      InPlaceOf(victim.value, Place(Without(b.container, victim.value), e.score))
    else Stored(Place(b.container, e.score))
  }

  lemma FateDecides(b: Best, e: Entry, victim: Option<nat>)
    ensures After(b, e, victim).container == Fated(b.container, e, FateOf(b, e, victim))
  {
    hide HashOf, Less, Greater, Lowest, Place;
  }

  /** Every run of insertions is a registration with some fates. */
  lemma {:induction false} RunRegisters(b: Best, offers: seq<Offer>) returns (fates: seq<Fate>)
    ensures |fates| == |offers|
    ensures Run(b, offers).container == Registered(b.container, seq(|offers|, i requires 0 <= i < |offers| => offers[i].entry), fates)
    decreases |offers|
  {
    if offers == [] {
      fates := [];
    } else {
      hide Fated, FateOf, After;
      var n := |offers| - 1;
      var before := Run(b, offers[..n]);
      var front := RunRegisters(b, offers[..n]);
      fates := front + [FateOf(before, offers[n].entry, offers[n].victim)];
      FateDecides(before, offers[n].entry, offers[n].victim);
      RunLast(b, offers);
      var xs := seq(|offers|, i requires 0 <= i < |offers| => offers[i].entry);
      assert xs[..n] == seq(n, i requires 0 <= i < n => offers[..n][i].entry);
      assert fates[..n] == front;
    }
  }

  lemma {:induction false} RunLast(b: Best, offers: seq<Offer>)
    requires offers != []
    ensures var n := |offers| - 1; Run(b, offers) == After(Run(b, offers[..n]), offers[n].entry, offers[n].victim)
    decreases |offers|
  {
    hide After;
    var n := |offers| - 1;
    if n > 0 {
      RunLast(After(b, offers[0].entry, offers[0].victim), offers[1..]);
      assert offers[1..][..n - 1] == offers[..n][1..];
    }
  }

  // ---- the two keys

  /** A new individual whose score is not below min_key. */
  predicate Candidate(b: Best, e: Entry) { !Duplicate(b, e) && !Less(e.score, b.minKey) }

  /** The scores of those that were candidates when they were offered. */
  function Candidates(b: Best, offers: seq<Offer>): seq<Measure>
    decreases offers
  {
    if offers == [] then [] else
    var o := offers[0];
    (if Candidate(b, o.entry) then [o.entry.score] else []) + Candidates(After(b, o.entry, o.victim), offers[1..])
  }

  lemma MaxKeyRises(b: Best, e: Entry, victim: Option<nat>)
    ensures var k := After(b, e, victim).maxKey;
            && AtMost(b.maxKey, k) && (Candidate(b, e) ==> AtMost(e.score, k))
            && (k == b.maxKey || (Candidate(b, e) && k == e.score))
  {
    hide Weight, Lowest, With, Evict, HashOf;
    StrictWeakOrder(b.maxKey, b.maxKey, b.maxKey);
    StrictWeakOrder(e.score, b.maxKey, e.score);
  }

  /** Over any run max_key is the highest of its start and the candidates: none lies above it, and it is one of them. */
  lemma {:induction false} MaxKeyIsHighest(b: Best, offers: seq<Offer>)
    ensures var k := Run(b, offers).maxKey;
            && AtMost(b.maxKey, k) && (forall c :: c in Candidates(b, offers) ==> AtMost(c, k))
            && (k == b.maxKey || k in Candidates(b, offers))
    decreases offers
  {
    hide After, AtMost, Candidate;
    if offers == [] {
      SelfAtMost(b.maxKey);
    } else {
      var o := offers[0];
      var b', k := After(b, o.entry, o.victim), Run(b, offers).maxKey;
      MaxKeyRises(b, o.entry, o.victim);
      MaxKeyIsHighest(b', offers[1..]);
      Through(b.maxKey, b'.maxKey, k);
      if Candidate(b, o.entry) { Through(o.entry.score, b'.maxKey, k); }
    }
  }

  lemma SelfAtMost(a: Measure)
    ensures AtMost(a, a)
  {
    StrictWeakOrder(a, a, a);
  }

  /** So an insertion reports a new best exactly when the individual is a candidate that no earlier candidate was above,
      and not just another one with the very measure that is the highest so far. */
  lemma NewBestExactly(b: Best, offers: seq<Offer>, e: Entry)
    ensures var now := Run(b, offers);
            NewBest(now, e) <==>
              && Candidate(now, e) && e.score != now.maxKey && AtMost(b.maxKey, e.score)
              && forall c :: c in Candidates(b, offers) ==> AtMost(c, e.score)
  {
    var now := Run(b, offers);
    MaxKeyIsHighest(b, offers);
    if AtMost(now.maxKey, e.score) {
      Through(b.maxKey, now.maxKey, e.score);
      forall c | c in Candidates(b, offers) ensures AtMost(c, e.score) { Through(c, now.maxKey, e.score); }
    }
    hide Less, Candidates;
  }

  predicate IsKey(start: Measure, key: Measure, c: seq<Entry>) {
    key == start || key == SENTINEL || exists i :: 0 <= i < |c| && c[i].score == key
  }

  lemma KeyAfter(start: Measure, b: Best, e: Entry, victim: Option<nat>)
    requires IsKey(start, b.minKey, b.container)
    ensures IsKey(start, After(b, e, victim).minKey, After(b, e, victim).container)
  {
    hide Less, Place, HashOf;
    var p, w := Place(b.container, e.score), With(b.container, e);
    assert w[p] == e;
    LowestIsLowest(After(b, e, victim).container);
    if i :| 0 <= i < |b.container| && b.container[i].score == b.minKey { assert w[if i < p then i else i + 1] == b.container[i]; }
  }

  /** In every reachable state min_key, a lower bound of what is stored, is the start, the sentinel or a stored score. */
  lemma {:induction false} MinKeyIsStored(start: Measure, b: Best, offers: seq<Offer>)
    requires IsKey(start, b.minKey, b.container)
    ensures IsKey(start, Run(b, offers).minKey, Run(b, offers).container)
    decreases offers
  {
    hide After, IsKey;
    if offers != [] {
      KeyAfter(start, b, offers[0].entry, offers[0].victim);
      MinKeyIsStored(start, After(b, offers[0].entry, offers[0].victim), offers[1..]);
    }
  }

  /** New individuals, no two alike. */
  ghost predicate New(hashes: set<Murmur3.Lanes>, offers: seq<Offer>)
    decreases offers
  {
    offers == [] ||
    (HashOf(offers[0].entry.data) !in hashes && New(hashes + {HashOf(offers[0].entry.data)}, offers[1..]))
  }

  /** As long as no key is equivalent to min_key, every new individual above min_key is added and none is evicted. */
  lemma Adds(b: Best, e: Entry, victim: Option<nat>)
    requires Inv(b) && Found(b, victim) && !Duplicate(b, e) && Less(b.minKey, e.score)
    requires forall i :: 0 <= i < |b.container| ==> Less(b.minKey, b.container[i].score)
    ensures After(b, e, victim).container == With(b.container, e)
    ensures After(b, e, victim).hashes == b.hashes + {HashOf(e.data)}
    ensures !Full(b) ==> After(b, e, victim).minKey == b.minKey
    ensures Full(b) ==> After(b, e, victim).minKey == Lowest(With(b.container, e))
  {
    hide HashOf, Less, Lowest, With;
    LessThrough(b.minKey, e.score);
    StrictWeakOrder(b.minKey, e.score, b.minKey);
  }

  lemma WithLess(key: Measure, c: seq<Entry>, e: Entry)
    requires Less(key, e.score) && forall i :: 0 <= i < |c| ==> Less(key, c[i].score)
    ensures forall i :: 0 <= i < |With(c, e)| ==> Less(key, With(c, e)[i].score)
  {
    hide Less, Place;
    var p, w := Place(c, e.score), With(c, e);
    forall i | 0 <= i < |w| ensures Less(key, w[i].score) {
      if i != p { assert w[i] == c[if i < p then i else i - 1]; }
    }
  }

  /** The header promises at most max_size entries, but the first insertion into a full set whose min_key is still
      the initial key evicts nothing: max_size + 1 new individuals above that key are all stored. */
  lemma {:induction false} FillsPastMaxSize(b: Best, offers: seq<Offer>)
    requires Inv(b) && Allowed(b, offers) && New(b.hashes, offers) && |b.container| + |offers| <= b.maxSize + 1
    requires forall i :: 0 <= i < |b.container| ==> Less(b.minKey, b.container[i].score)
    requires forall o :: o in offers ==> Less(b.minKey, o.entry.score)
    ensures |Run(b, offers).container| == |b.container| + |offers|
    decreases offers
  {
    hide HashOf, Less, After, Inv, Found, Place;
    if offers != [] {
      var o := offers[0];
      InvAfter(b, o.entry, o.victim);
      Adds(b, o.entry, o.victim);
      WithLess(b.minKey, b.container, o.entry);
      if |offers| > 1 {
        SameLimit(b, o.entry, o.victim);
        FillsPastMaxSize(After(b, o.entry, o.victim), offers[1..]);
      }
    }
  }

  lemma SameLimit(b: Best, e: Entry, victim: Option<nat>)
    ensures After(b, e, victim).maxSize == b.maxSize
  {
    hide HashOf, Less;
  }

  /** Above the sentinel there is no bound at all: new individuals with such scores are all stored. */
  lemma {:induction false} GrowsWithoutBound(b: Best, offers: seq<Offer>)
    requires Inv(b) && Allowed(b, offers) && New(b.hashes, offers)
    requires forall i :: 0 <= i < |b.container| ==> Less(SENTINEL, b.container[i].score)
    requires forall o :: o in offers ==> Less(SENTINEL, o.entry.score)
    ensures |Run(b, offers).container| == |b.container| + |offers|
    decreases offers
  {
    hide HashOf, Less, After, Found, Place, HashesOf, Distinct, Sorted, Bounds;
    if offers != [] {
      var o := offers[0];
      InvAfter(b, o.entry, o.victim);
      forall i | 0 <= i < |b.container| ensures Less(b.minKey, b.container[i].score) {
        Above(b.minKey, b.container[i].score);
      }
      Above(b.minKey, o.entry.score);
      Adds(b, o.entry, o.victim);
      WithLess(SENTINEL, b.container, o.entry);
      GrowsWithoutBound(After(b, o.entry, o.victim), offers[1..]);
    }
  }

  lemma Above(key: Measure, score: Measure)
    requires AtMost(key, SENTINEL) && Less(SENTINEL, score)
    ensures Less(key, score)
  {
    StrictWeakOrder(SENTINEL, key, score);
  }

  /** Such scores exist: every part at its maximum, for an input shorter than 2^32 - 1 bytes. */
  lemma AboveTheSentinel(length: nat)
    ensures Less(SENTINEL, Measure(Score(TOP, TOP), Score(TOP, TOP), length)) <==> length < TOP
  {
    hide Norm;
  }

  // ---- inputs that fill the set: one-block buffers, whose hashes all differ

  /** The n low bytes of k, lowest first. */
  function Bytes(k: nat, n: nat): (d: seq<Byte>)
    ensures |d| == n
  {
    if n == 0 then [] else [k % 256] + Bytes(k / 256, n - 1)
  }

  lemma {:induction false} BytesDiffer(j: nat, k: nat, n: nat)
    requires j < k < Pow2(8 * n)
    ensures Bytes(j, n) != Bytes(k, n)
    decreases n
  {
    Pow2Add(8, 8 * n - 8);
    assert Pow2(8) == 256;
    if j % 256 == k % 256 {
      BytesDiffer(j / 256, k / 256, n - 1);
      assert Bytes(j, n)[1..] == Bytes(j / 256, n - 1) && Bytes(k, n)[1..] == Bytes(k / 256, n - 1);
    } else {
      assert Bytes(j, n)[0] != Bytes(k, n)[0];
    }
  }

  function Block(k: nat): Input { Bytes(k, 16) }

  lemma BlockHashes(j: nat, k: nat)
    requires j < k < Pow2(128)
    ensures HashOf(Block(j)) != HashOf(Block(k))
  {
    hide Murmur3.Hash, Bytes, Pow2;
    BytesDiffer(j, k, 16);
    Murmur3.NoCollision(Block(j), Block(k), 0, 0);
  }

  /** The blocks from k on, all with one score, offered one after the other. */
  lemma {:induction false} BlocksOffered(b: Best, score: Measure, k: nat, n: nat, hashes: set<Murmur3.Lanes>)
      returns (offers: seq<Offer>)
    requires k + n <= Pow2(128) && forall h :: h in hashes ==> exists j :: 0 <= j < k && HashOf(Block(j)) == h
    ensures |offers| == n && Allowed(b, offers) && New(hashes, offers)
    ensures forall o :: o in offers ==> o.entry.score == score
    decreases n
  {
    hide HashOf, Block, Found, After, Pow2;
    offers := [];
    if n > 0 {
      WhateverIsFound(b);
      var victim :| Found(b, victim);
      var e := Entry(score, Block(k));
      forall j | 0 <= j < k ensures HashOf(Block(j)) != HashOf(e.data) { BlockHashes(j, k); }
      var rest := BlocksOffered(After(b, e, victim), score, k + 1, n - 1, hashes + {HashOf(e.data)});
      offers := [Offer(e, victim)] + rest;
      assert offers[1..] == rest;
    }
  }

  lemma LowScore(length: nat)
    ensures var score := Measure(Score(1, 1), Score(1, 1), 0);
            Less(Measure(Score(0, 0), Score(0, 0), length), score) && AtMost(score, SENTINEL)
  {
    hide NormOf;
    ZeroOnlyAtZero(Score(0, 0));
    ZeroOnlyAtZero(Score(1, 1));
    assert Norm(Score(1, 1)) == 1 by { NormIsLeast(1, 1, 1); NormIsLeast(1, 1, 0); }
    assert Norm(Score(TOP, TOP)) > 1 by { NormIsLeast(TOP, TOP, 1); }
  }

  /** The bound of SizeBound is reached, by scores at which it holds. */
  lemma BoundIsTight(maxSize: nat, minLength: nat, maxLength: nat)
    requires maxSize < Pow2(128)
    ensures exists offers: seq<Offer> ::
              && Allowed(Start(maxSize, minLength, maxLength), offers)
              && (forall o :: o in offers ==> AtMost(o.entry.score, SENTINEL))
              && |Run(Start(maxSize, minLength, maxLength), offers).container| == maxSize + 1
  {
    hide Allowed, Run, New, Inv, Pow2, NormOf, AtMost, Less;
    var b, score := Start(maxSize, minLength, maxLength), Measure(Score(1, 1), Score(1, 1), 0);
    InvStart(maxSize, minLength, maxLength);
    LowScore(minLength);
    var offers := BlocksOffered(b, score, 0, maxSize + 1, {});
    FillsPastMaxSize(b, offers);
  }

  /** Above the sentinel a set of any size bound holds as many individuals as there are hash values. */
  lemma HoldsAnyNumber(maxSize: nat, minLength: nat, maxLength: nat, n: nat)
    requires n <= Pow2(128)
    ensures exists offers: seq<Offer> ::
              && Allowed(Start(maxSize, minLength, maxLength), offers)
              && |Run(Start(maxSize, minLength, maxLength), offers).container| == n
  {
    hide Allowed, Run, Less, New, Inv, Pow2;
    var b, score := Start(maxSize, minLength, maxLength), Measure(Score(TOP, TOP), Score(TOP, TOP), 0);
    InvStart(maxSize, minLength, maxLength);
    AboveTheSentinel(0);
    var offers := BlocksOffered(b, score, 0, n, {});
    GrowsWithoutBound(b, offers);
  }

  // ---------------------------------------------------------------- the code

  class BestIndividuals {
    var maxSize: nat
    var maxKey: Measure
    var minKey: Measure
    var hashes: set<Murmur3.Lanes>
    var container: seq<Entry>

    ghost function State(): Best
      reads this
    {
      Best(maxSize, minKey, maxKey, hashes, container)
    }

    ghost predicate Valid()
      reads this
    {
      Inv(State())
    }

    constructor (maxSize: nat)
      ensures Valid() && exists m, n :: State() == Start(maxSize, m, n)
    {
      this.maxSize := maxSize;
      var m: nat, n: nat := *, *;
      minKey, maxKey := Measure(Score(0, 0), Score(0, 0), m), Measure(Score(0, 0), Score(0, 0), n);
      hashes, container := {}, [];
      InvStart(maxSize, m, n);
    }

    /** container.find(min_key) */
    method FindMinKey() returns (victim: Option<nat>)
      ensures Found(State(), victim)
    {
      var i := 0;
      while i < |container|
        invariant 0 <= i <= |container|
        invariant forall j :: 0 <= j < i ==> !Equivalent(container[j].score, minKey)
      {
        if !Less(container[i].score, minKey) && !Less(minKey, container[i].score) { return Some(i); }
        i := i + 1;
      }
      victim := None;
    }

    method ConsolidateMinKey()
      modifies this`minKey
      ensures minKey == Lowest(container)
    {
      hide Less;
      minKey := SENTINEL;
      var i := 0;
      while i < |container|
        invariant 0 <= i <= |container| && minKey == Lowest(container[..i])
      {
        assert container[..i + 1][..i] == container[..i];
        if Less(container[i].score, minKey) { minKey := container[i].score; }
        i := i + 1;
      }
      assert container[..i] == container;
    }

    method Insert(score: Measure, data: Input) returns (result: bool)
      requires Valid()
      modifies this
      ensures exists victim :: Found(old(State()), victim) && State() == After(old(State()), Entry(score, data), victim)
      ensures Valid() && result == old(NewBest(State(), Entry(score, data)))
    {
      hide Inv, Less, Greater, Lowest, With, HashOf, Equivalent, Without;
      ghost var e, b := Entry(score, data), State();
      var hash := HashOf(data);
      if hash in hashes { assert State() == After(b, e, None); WhateverIsFound(b); return false; }
      result := false;
      if |container| >= maxSize {
        if Less(score, minKey) { assert State() == After(b, e, None); WhateverIsFound(b); return false; }
        var victim := FindMinKey();
        InvAfter(b, e, victim);
        if victim.Some? {
          hashes := hashes - {HashOf(container[victim.value].data)};
          container := Without(container, victim.value);
        }
        if Greater(score, maxKey) {
          maxKey := score;
          result := true;
        }
        container := With(container, Entry(score, data));
        hashes := hashes + {hash};
        ConsolidateMinKey();
        assert State() == After(b, e, victim);
      } else {
        WhateverIsFound(b);
        ghost var victim :| Found(b, victim);
        InvAfter(b, e, victim);
        if Less(score, minKey) {
          minKey := score;
        } else if Greater(score, maxKey) {
          result := true;
          maxKey := score;
        }
        hashes := hashes + {hash};
        container := With(container, Entry(score, data));
        assert State() == After(b, e, victim);
      }
    }

    /** The best num entries, best first; one entry even when none is asked for. */
    method GetBest(num: nat, remaining: nat) returns (result: seq<Entry>, remaining': nat)
      requires Valid()
      ensures |result| == if num >= |container| then |container| else if num == 0 then 1 else num
      ensures forall j :: 0 <= j < |result| ==> result[j] == container[|container| - 1 - j]
      ensures forall i, j :: 0 <= i < |container| - |result| && 0 <= j < |result| ==>
                AtMost(container[i].score, result[j].score)
      ensures remaining' == if num > |container| then num - |container| else remaining
    {
      hide AtMost, Distinct, HashesOf, Bounds;
      result, remaining' := [], remaining;
      var wanted := num;
      if num > |container| {
        remaining' := num - |container|;
        wanted := |container|;
      }
      var k := |container|;
      while k > 0
        invariant 0 <= k <= |container| && |result| == |container| - k
        invariant forall j :: 0 <= j < |result| ==> result[j] == container[|container| - 1 - j]
        invariant k < |container| ==> |result| < wanted
      {
        k := k - 1;
        result := result + [container[k]];
        if |result| >= wanted { break; }
      }
    }
  }

  /** Some search result always exists. */
  lemma WhateverIsFound(b: Best)
    ensures exists victim :: Found(b, victim)
  {
    if i :| 0 <= i < |b.container| && Equivalent(b.container[i].score, b.minKey) {
      assert Found(b, Some(i));
    } else {
      assert Found(b, None);
    }
  }
}
