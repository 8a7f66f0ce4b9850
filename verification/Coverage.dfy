/** Coverage knowledge (fuzzer/knowledge.cpp, Coverage): the growing graph, the reached functions and covered
    goals, and the scores that testcases earn. The class is proved against a function on plain values; that
    function is then shown to conserve scores and not to depend on the order of traces. */
module Coverage {
  import opened Prelude
  import opened Store
  import opened LruCache
  import opened Knowledge

  type Testcase = nat

  /** One event of a trace: a function boundary when cur is 0, else a control-flow edge. */
  datatype TraceElement = TraceElement(func: Id, pred: nat, cur: nat)

  datatype Score = Score(absolute: nat, diff: nat)

  type Scores = map<Testcase, Score>

  // ---------------------------------------------------------------- what a trace element does, as a value

  datatype Known = Known(labels: set<Id>, edges: set<(Id, Id)>, reached: set<Id>, goals: set<Id>,
                         coverage: Scores, goalScores: Scores)

  function Award(m: Scores, tc: Testcase, s: Score): Scores {
    m[tc := if tc in m then Score(m[tc].absolute + s.absolute, m[tc].diff + s.diff) else s]
  }

  function GoalWeight(op: Operator): nat {
    match op
    case PassThrough => 10
    case BufferWrite => 7
    case BufferRead => 3
    case BufferReadWrite => 3
    case BufferUnknown => 2
    case IntegerMayOverflow => 2
    case IntegerUnknown => 2
    case CastUnsafe => 2
    case CastUnknown => 1
  }

  /** The weight of one stored goal; ids that are no goals weigh nothing. */
  function Weight(elements: Elements, id: Id): nat {
    if id in elements && elements[id].SummaryElement? then GoalWeight(elements[id].op) else 0
  }

  /** The goals of a block: what they are worth, and what of it is new. */
  function GoalScore(elements: Elements, covered: set<Id>, ids: seq<Id>): Score {
    if ids == [] then Score(0, 0) else
    var n := |ids| - 1;
    var s := GoalScore(elements, covered, ids[..n]);
    var w := Weight(elements, ids[n]);
    Score(s.absolute + w, if ids[n] in covered || ids[n] in ids[..n] then s.diff else s.diff + w)
  }

  function BlockGoals(elements: Elements, block: Id): seq<Id> {
    if block in elements && elements[block].BlockElement? then elements[block].summaries else []
  }

  function IdsIn(ids: seq<Id>): set<Id> { set id | id in ids }

  function AfterElement(elements: Elements, k: Known, tc: Testcase, e: TraceElement): Known
    requires WellBuilt(elements)
  {
    if e.cur == 0 then
      if e.func == 0 then k
      else if e.func !in k.reached then
        k.(reached := k.reached + {e.func}, coverage := Award(k.coverage, tc, Score(2, 1)))
      else k.(coverage := Award(k.coverage, tc, Score(1, 0)))
    else AfterEdge(elements, k, tc, Lookup(elements, e.func, e.pred), Lookup(elements, e.func, e.cur))
  }

  function AfterEdge(elements: Elements, k: Known, tc: Testcase, p: Id, c: Id): Known {
    var g := GoalScore(elements, k.goals, BlockGoals(elements, c));
    Known(k.labels + {p, c}, k.edges + {(p, c)}, k.reached, k.goals + IdsIn(BlockGoals(elements, c)),
          Award(k.coverage, tc, if (p, c) in k.edges then Score(1, 0) else Score(2, 1)),
          if g.absolute > 0 || g.diff > 0 then Award(k.goalScores, tc, g) else k.goalScores)
  }

  // ---------------------------------------------------------------- the code

  const U32 := 0x1_0000_0000

  /** A score as stored: two 32-bit counters that wrap. */
  function Wrapped(s: Score): Score { Score(s.absolute % U32, s.diff % U32) }

  function WrappedAll(m: Scores): Scores { map tc | tc in m :: Wrapped(m[tc]) }

  /** What a score update stores. */
  function AwardWrapped(m: Scores, tc: Testcase, s: Score): Scores {
    m[tc := if tc in m then Score((m[tc].absolute + s.absolute) % U32, (m[tc].diff + s.diff) % U32) else s]
  }

  lemma AwardWraps(m: Scores, tc: Testcase, s: Score)
    requires s.absolute < U32 && s.diff < U32
    ensures AwardWrapped(WrappedAll(m), tc, s) == WrappedAll(Award(m, tc, s))
  {
    if tc in m {
      WrapSum(m[tc].absolute, s.absolute);
      WrapSum(m[tc].diff, s.diff);
    }
  }

  lemma WrapSum(a: nat, b: nat)
    ensures (a % U32 + b) % U32 == (a + b) % U32
  {
  }

  /** Block and goal counts are far below 2^32 / 10, so one block's goals never overflow a score. */
  predicate FewGoals(elements: Elements) {
    forall b :: b in elements && elements[b].BlockElement? ==> 10 * |elements[b].summaries| < U32
  }

  lemma {:induction false} GoalScoreBound(elements: Elements, covered: set<Id>, ids: seq<Id>)
    ensures GoalScore(elements, covered, ids).diff <= GoalScore(elements, covered, ids).absolute <= 10 * |ids|
    decreases |ids|
  {
    if ids != [] { GoalScoreBound(elements, covered, ids[..|ids| - 1]); }
  }

  lemma GoalStep(elements: Elements, covered: set<Id>, ids: seq<Id>, i: nat)
    requires i < |ids|
    ensures IdsIn(ids[..i + 1]) == IdsIn(ids[..i]) + {ids[i]}
    ensures var s, w := GoalScore(elements, covered, ids[..i]), Weight(elements, ids[i]);
            GoalScore(elements, covered, ids[..i + 1]) ==
            Score(s.absolute + w, if ids[i] in covered + IdsIn(ids[..i]) then s.diff else s.diff + w)
  {
    assert ids[..i + 1][..i] == ids[..i];
  }

  lemma LabelsGrow(vertices: seq<Id>, edges: set<(nat, nat)>, element: Id)
    requires GraphOk(vertices, edges) && element !in vertices
    ensures GraphOk(vertices + [element], edges)
    ensures EdgeLabels(vertices + [element], edges) == EdgeLabels(vertices, edges)
    ensures IdsIn(vertices + [element]) == IdsIn(vertices) + {element}
  {
    assert forall i :: 0 <= i < |vertices| ==> (vertices + [element])[i] == vertices[i];
    assert forall e :: e in edges ==> (vertices + [element])[e.0] == vertices[e.0] && (vertices + [element])[e.1] == vertices[e.1];
  }

  function WithVertex(vertices: seq<Id>, element: Id): seq<Id> {
    if element in vertices then vertices else vertices + [element]
  }

  lemma VertexAdded(vertices: seq<Id>, edges: set<(nat, nat)>, element: Id)
    requires GraphOk(vertices, edges)
    ensures var w := WithVertex(vertices, element);
            GraphOk(w, edges) && EdgeLabels(w, edges) == EdgeLabels(vertices, edges) && IdsIn(w) == IdsIn(vertices) + {element}
            && forall i :: 0 <= i < |vertices| ==> w[i] == vertices[i]
  {
    if element !in vertices { LabelsGrow(vertices, edges, element); }
  }

  /** An edge is in the graph exactly when its pair of labels is. */
  lemma EdgeByLabels(vertices: seq<Id>, edges: set<(nat, nat)>, a: nat, b: nat)
    requires GraphOk(vertices, edges) && a < |vertices| && b < |vertices|
    ensures (a, b) in edges <==> (vertices[a], vertices[b]) in EdgeLabels(vertices, edges)
    ensures GraphOk(vertices, edges + {(a, b)})
    ensures EdgeLabels(vertices, edges + {(a, b)}) == EdgeLabels(vertices, edges) + {(vertices[a], vertices[b])}
  {
    if (vertices[a], vertices[b]) in EdgeLabels(vertices, edges) {
      var e :| e in edges && (vertices[e.0], vertices[e.1]) == (vertices[a], vertices[b]);
      assert e.0 == a && e.1 == b;
    }
  }

  /** No two vertices share a label, and edges join vertices. */
  predicate GraphOk(vertices: seq<Id>, edges: set<(nat, nat)>) {
    && (forall i, j :: 0 <= i < j < |vertices| ==> vertices[i] != vertices[j])
    && (forall e :: e in edges ==> e.0 < |vertices| && e.1 < |vertices|)
  }

  function EdgeLabels(vertices: seq<Id>, edges: set<(nat, nat)>): set<(Id, Id)>
    requires GraphOk(vertices, edges)
  {
    set e | e in edges :: (vertices[e.0], vertices[e.1])
  }

  /** Every cached vertex number is right. */
  predicate CacheOk(vertices: seq<Id>, cached: seq<Entry<Id, nat>>) {
    forall e :: e in cached ==> EntryOk(vertices, e)
  }

  predicate EntryOk(vertices: seq<Id>, e: Entry<Id, nat>) {
    e.value < |vertices| && vertices[e.value] == e.key
  }

  lemma CacheAfterPut(vertices: seq<Id>, cached: seq<Entry<Id, nat>>, cap: nat, element: Id, v: nat)
    requires CacheOk(vertices, cached) && v < |vertices| && vertices[v] == element
    ensures CacheOk(vertices, AfterPut(cached, cap, element, v))
  {
    hide AfterPut;
    forall e | e in AfterPut(cached, cap, element, v) ensures EntryOk(vertices, e) {
      PutKeeps(cached, cap, element, v, e);
    }
  }

  lemma CacheAfterGet(vertices: seq<Id>, cached: seq<Entry<Id, nat>>, element: Id)
    requires CacheOk(vertices, cached)
    ensures CacheOk(vertices, AfterGet(cached, element))
    ensures Find(cached, element).Some? ==> EntryOk(vertices, Entry(element, Find(cached, element).value))
  {
    hide AfterGet;
    forall e | e in AfterGet(cached, element) ensures EntryOk(vertices, e) {
      GetKeeps(cached, element, e);
    }
  }

  lemma GraphGrows(vertices: seq<Id>, edges: set<(nat, nat)>, cached: seq<Entry<Id, nat>>, element: Id)
    requires GraphOk(vertices, edges) && CacheOk(vertices, cached) && element !in vertices
    ensures GraphOk(vertices + [element], edges) && CacheOk(vertices + [element], cached)
  {
  }

  class Coverage {
    const knowledge: ProgramKnowledge
    const vertexCache: Cache<Id, nat>
    /** Vertex number to element id, in order of insertion. */
    var vertices: seq<Id>
    var edges: set<(nat, nat)>
    var reached: set<Id>
    var goals: set<Id>
    var coverageScores: Scores
    var goalScores: Scores
    /** The stored scores before wrapping. */
    ghost var exactCoverage: Scores
    ghost var exactGoals: Scores

    ghost predicate Valid()
      reads this, vertexCache, knowledge, knowledge.cache
    {
      && knowledge.Valid() && FewGoals(knowledge.elements) && vertexCache.Valid() && vertexCache as object != knowledge.cache
      && GraphOk(vertices, edges) && CacheOk(vertices, vertexCache.Contents())
      && coverageScores == WrappedAll(exactCoverage) && goalScores == WrappedAll(exactGoals)
    }

    ghost function View(): Known
      requires GraphOk(vertices, edges)
      reads this
    {
      Known(IdsIn(vertices), EdgeLabels(vertices, edges), reached, goals, exactCoverage, exactGoals)
    }

    constructor (knowledge: ProgramKnowledge, capacity: nat)
      requires knowledge.Valid() && FewGoals(knowledge.elements)
      ensures Valid() && fresh(vertexCache) && this.knowledge == knowledge
      ensures View() == Known({}, {}, {}, {}, map[], map[])
    {
      this.knowledge := knowledge;
      this.vertexCache := new Cache(capacity);
      vertices, edges, reached, goals := [], {}, {}, {};
      coverageScores, goalScores, exactCoverage, exactGoals := map[], map[], map[], map[];
    }

    /** The linear scan. */
    method FindVertex(element: Id) returns (found: bool, v: nat)
      requires Valid()
      ensures found <==> element in vertices
      ensures found ==> v < |vertices| && vertices[v] == element
    {
      v := 0;
      while v < |vertices|
        invariant v <= |vertices| && element !in vertices[..v]
      {
        if vertices[v] == element { return true, v; }
        v := v + 1;
      }
      found := false;
    }

    /** Through the cache or not, the one vertex with this label; no label is ever given twice. */
    method AddVertex(element: Id) returns (v: nat)
      requires Valid()
      modifies this`vertices, vertexCache
      ensures Valid()
      ensures v < |vertices| && vertices[v] == element
      ensures vertices == WithVertex(old(vertices), element)
    {
      hide GraphOk, CacheOk, AfterPut, AfterGet, WrappedAll, FewGoals;
      hide ProgramKnowledge.Valid, Cache.Valid, Cache.Contents;
      CacheAfterGet(vertices, vertexCache.Contents(), element);
      if vertexCache.Exists(element) {
        var hit := vertexCache.CopyGet(element);
        v := hit.value;
        return;
      }
      var found, t := FindVertex(element);
      if !found {
        GraphGrows(vertices, edges, vertexCache.Contents(), element);
        t := |vertices|;
        vertices := vertices + [element];
      }
      CacheAfterPut(vertices, vertexCache.Contents(), vertexCache.maxSize, element, t);
      vertexCache.Put(element, t);
      v := t;
    }

    method UpdateCoverageScore(tc: Testcase, s: Score)
      requires Valid() && s.absolute < U32 && s.diff < U32
      modifies this`coverageScores, this`exactCoverage
      ensures Valid()
      ensures View() == old(View()).(coverage := Award(old(View()).coverage, tc, s))
    {
      AwardWraps(exactCoverage, tc, s);
      coverageScores := AwardWrapped(coverageScores, tc, s);
      exactCoverage := Award(exactCoverage, tc, s);
    }

    method UpdateGoalScore(tc: Testcase, s: Score)
      requires Valid() && s.absolute < U32 && s.diff < U32
      modifies this`goalScores, this`exactGoals
      ensures Valid()
      ensures View() == old(View()).(goalScores := Award(old(View()).goalScores, tc, s))
    {
      AwardWraps(exactGoals, tc, s);
      goalScores := AwardWrapped(goalScores, tc, s);
      exactGoals := Award(exactGoals, tc, s);
    }

    /** The loop over the goals of a block. */
    method ScoreGoals(ids: seq<Id>) returns (s: Score)
      modifies this`goals
      ensures s == GoalScore(knowledge.elements, old(goals), ids)
      ensures goals == old(goals) + IdsIn(ids)
    {
      var elements := knowledge.elements;
      s := Score(0, 0);
      for i := 0 to |ids|
        invariant goals == old(goals) + IdsIn(ids[..i])
        invariant s == GoalScore(elements, old(goals), ids[..i])
      {
        hide GoalScore, GoalWeight, IdsIn;
        GoalStep(elements, old(goals), ids, i);
        var isNew := ids[i] !in goals;
        goals := goals + {ids[i]};
        if ids[i] in elements && elements[ids[i]].SummaryElement? {
          var w := GoalWeight(elements[ids[i]].op);
          s := Score(s.absolute + w, if isNew then s.diff + w else s.diff);
        }
      }
      assert ids[..|ids|] == ids;
    }

    method ComputeGoalScore(block: Id) returns (s: Score)
      requires Valid()
      modifies this`goals
      ensures Valid()
      ensures s == GoalScore(knowledge.elements, old(View()).goals, BlockGoals(knowledge.elements, block))
      ensures View() == old(View()).(goals := old(View()).goals + IdsIn(BlockGoals(knowledge.elements, block)))
      ensures s.diff <= s.absolute < U32
    {
      hide EdgeLabels, GraphOk, CacheOk;
      var elements := knowledge.elements;
      s := Score(0, 0);
      if block in elements && elements[block].BlockElement? {
        GoalScoreBound(elements, goals, elements[block].summaries);
        s := ScoreGoals(elements[block].summaries);
      }
    }

    /** Both ends of an edge. */
    method AddVertices(source: Id, dest: Id) returns (a: nat, b: nat)
      requires Valid()
      modifies this`vertices, vertexCache
      ensures Valid()
      ensures a < |vertices| && vertices[a] == source && b < |vertices| && vertices[b] == dest
      ensures View() == old(View()).(labels := old(View()).labels + {source, dest})
    {
      VertexAdded(vertices, edges, source);
      a := AddVertex(source);
      hide GraphOk, EdgeLabels, CacheOk;
      VertexAdded(vertices, edges, dest);
      b := AddVertex(dest);
      hide Valid;
      assert IdsIn(vertices) == IdsIn(old(vertices)) + {source} + {dest};
    }

    method AddEdge(source: Id, dest: Id, tc: Testcase)
      requires Valid()
      modifies this, vertexCache
      ensures Valid()
      ensures View() == AfterEdge(knowledge.elements, old(View()), tc, source, dest)
    {
      hide GraphOk, CacheOk, EdgeLabels, GoalScore, Award;
      var a, b := AddVertices(source, dest);
      EdgeByLabels(vertices, edges, a, b);
      if (a, b) !in edges {
        UpdateCoverageScore(tc, Score(2, 1));
        edges := edges + {(a, b)};
      } else {
        UpdateCoverageScore(tc, Score(1, 0));
      }
      var g := ComputeGoalScore(dest);
      if g.absolute > 0 || g.diff > 0 {
        UpdateGoalScore(tc, g);
      }
    }

    method AddTraceElement(tc: Testcase, e: TraceElement)
      requires Valid()
      modifies this, vertexCache, knowledge.cache
      ensures Valid()
      ensures View() == AfterElement(knowledge.elements, old(View()), tc, e)
    {
      hide GraphOk, CacheOk, EdgeLabels, GoalScore, Award, AfterEdge, Lookup;
      if e.cur == 0 {
        if e.func != 0 {
          if e.func !in reached {
            UpdateCoverageScore(tc, Score(2, 1));
            reached := reached + {e.func};
          } else {
            UpdateCoverageScore(tc, Score(1, 0));
          }
        }
        return;
      }
      var pred := knowledge.GetBlockElement(e.func, e.pred);
      var cur := knowledge.GetBlockElement(e.func, e.cur);
      AddEdge(pred, cur, tc);
    }

    method AddTrace(tc: Testcase, trace: seq<TraceElement>)
      requires Valid()
      modifies this, vertexCache, knowledge.cache
      ensures Valid()
      ensures View() == AfterAll(knowledge.elements, old(View()), Tagged(tc, trace))
    {
      ghost var events := Tagged(tc, trace);
      for i := 0 to |trace|
        invariant Valid()
        invariant View() == AfterAll(knowledge.elements, old(View()), events[..i])
      {
        hide Valid, GraphOk, AfterElement;
        AddTraceElement(tc, trace[i]);
        assert events[..i + 1][..i] == events[..i];
      }
      assert events[..|trace|] == events;
    }

    method ResetScores()
      requires Valid()
      modifies this`coverageScores, this`goalScores, this`exactCoverage, this`exactGoals
      ensures Valid()
      ensures View() == old(View()).(coverage := map[], goalScores := map[])
    {
      coverageScores, goalScores, exactCoverage, exactGoals := map[], map[], map[], map[];
    }
  }

  // ---------------------------------------------------------------- whole runs of traces

  type TraceEvent = (Testcase, TraceElement)

  function Tagged(tc: Testcase, trace: seq<TraceElement>): seq<TraceEvent> {
    seq(|trace|, i requires 0 <= i < |trace| => (tc, trace[i]))
  }

  /** Any number of trace elements of any testcases, one after the other. */
  function AfterAll(elements: Elements, k: Known, events: seq<TraceEvent>): Known
    requires WellBuilt(elements)
  {
    if events == [] then k else
    var n := |events| - 1;
    AfterElement(elements, AfterAll(elements, k, events[..n]), events[n].0, events[n].1)
  }

  ghost function TotalDiff(m: Scores): nat
    decreases |m|
  {
    if m == map[] then 0 else
    var tc :| tc in m;
    m[tc].diff + TotalDiff(m - {tc})
  }

  ghost function TotalWeight(elements: Elements, ids: set<Id>): nat {
    if ids == {} then 0 else
    var id :| id in ids;
    Weight(elements, id) + TotalWeight(elements, ids - {id})
  }

  lemma {:induction false} TotalDiffPick(m: Scores, tc: Testcase)
    requires tc in m
    ensures TotalDiff(m) == m[tc].diff + TotalDiff(m - {tc})
    decreases |m|
  {
    var p :| p in m && TotalDiff(m) == m[p].diff + TotalDiff(m - {p});
    if p != tc {
      TotalDiffPick(m - {p}, tc);
      TotalDiffPick(m - {tc}, p);
      assert m - {p} - {tc} == m - {tc} - {p};
    }
  }

  lemma {:induction false} TotalWeightPick(elements: Elements, ids: set<Id>, id: Id)
    requires id in ids
    ensures TotalWeight(elements, ids) == Weight(elements, id) + TotalWeight(elements, ids - {id})
    decreases ids
  {
    var p :| p in ids && TotalWeight(elements, ids) == Weight(elements, p) + TotalWeight(elements, ids - {p});
    if p != id {
      TotalWeightPick(elements, ids - {p}, id);
      TotalWeightPick(elements, ids - {id}, p);
      assert ids - {p} - {id} == ids - {id} - {p};
    }
  }

  lemma AwardTotals(m: Scores, tc: Testcase, s: Score)
    ensures TotalDiff(Award(m, tc, s)) == TotalDiff(m) + s.diff
  {
    var m' := Award(m, tc, s);
    TotalDiffPick(m', tc);
    assert m' - {tc} == m - {tc};
    if tc in m { TotalDiffPick(m, tc); } else { assert m - {tc} == m; }
  }

  lemma WeightAdded(elements: Elements, ids: set<Id>, id: Id)
    ensures TotalWeight(elements, ids + {id}) == TotalWeight(elements, ids) + if id in ids then 0 else Weight(elements, id)
  {
    if id in ids {
      assert ids + {id} == ids;
    } else {
      TotalWeightPick(elements, ids + {id}, id);
      assert ids + {id} - {id} == ids;
    }
  }

  lemma {:induction false} GoalDiffIsNewWeight(elements: Elements, covered: set<Id>, ids: seq<Id>)
    ensures TotalWeight(elements, covered + IdsIn(ids)) ==
            TotalWeight(elements, covered) + GoalScore(elements, covered, ids).diff
    decreases |ids|
  {
    if ids == [] {
      assert covered + IdsIn(ids) == covered;
    } else {
      var n := |ids| - 1;
      GoalDiffIsNewWeight(elements, covered, ids[..n]);
      GoalStep(elements, covered, ids, n);
      assert ids[..n + 1] == ids;
      WeightAdded(elements, covered + IdsIn(ids[..n]), ids[n]);
      assert covered + IdsIn(ids[..n]) + {ids[n]} == covered + IdsIn(ids);
    }
  }

  /** Elements that earn a coverage score. */
  predicate Scored(e: TraceElement) { e.cur != 0 || e.func != 0 }

  function Sum(worth: TraceEvent -> nat, events: seq<TraceEvent>): nat {
    if events == [] then 0 else
    var n := |events| - 1;
    Sum(worth, events[..n]) + worth(events[n])
  }

  function ScoredWorthOf(tc: Testcase): TraceEvent -> nat {
    (ev: TraceEvent) => if ev.0 == tc && Scored(ev.1) then 1 else 0
  }

  /** A testcase's absolute score beyond its diff. */
  function Base(m: Scores, tc: Testcase): int { if tc in m then m[tc].absolute - m[tc].diff else 0 }

  ghost predicate Conserves(elements: Elements, k: Known, k': Known, events: seq<TraceEvent>) {
    && k.edges <= k'.edges && k.reached <= k'.reached && k.goals <= k'.goals
    && TotalDiff(k'.coverage) - TotalDiff(k.coverage) == |k'.edges| - |k.edges| + |k'.reached| - |k.reached|
    && (forall tc :: Base(k'.coverage, tc) - Base(k.coverage, tc) == Sum(ScoredWorthOf(tc), events))
    && TotalDiff(k'.goalScores) - TotalDiff(k.goalScores) == TotalWeight(elements, k'.goals) - TotalWeight(elements, k.goals)
  }

  lemma BaseAward(m: Scores, tc: Testcase, s: Score, t: Testcase)
    ensures Base(Award(m, tc, s), t) == Base(m, t) + if t == tc then s.absolute - s.diff else 0
  {
  }

  lemma EdgeConserves(elements: Elements, k: Known, tc: Testcase, p: Id, c: Id)
    ensures var k' := AfterEdge(elements, k, tc, p, c);
            && TotalDiff(k'.coverage) - TotalDiff(k.coverage) == |k'.edges| - |k.edges|
            && TotalDiff(k'.goalScores) - TotalDiff(k.goalScores) == TotalWeight(elements, k'.goals) - TotalWeight(elements, k.goals)
  {
    hide TotalDiff, TotalWeight, GoalScore, Award;
    var ids := BlockGoals(elements, c);
    var g := GoalScore(elements, k.goals, ids);
    AwardTotals(k.coverage, tc, if (p, c) in k.edges then Score(1, 0) else Score(2, 1));
    AwardTotals(k.goalScores, tc, g);
    GoalDiffIsNewWeight(elements, k.goals, ids);
    if (p, c) in k.edges { assert k.edges + {(p, c)} == k.edges; }
  }

  lemma ElementConserves(elements: Elements, k: Known, tc: Testcase, e: TraceElement)
    requires WellBuilt(elements)
    ensures var k' := AfterElement(elements, k, tc, e);
            && k.edges <= k'.edges && k.reached <= k'.reached && k.goals <= k'.goals
            && TotalDiff(k'.coverage) - TotalDiff(k.coverage) == |k'.edges| - |k.edges| + |k'.reached| - |k.reached|
            && (forall t :: Base(k'.coverage, t) - Base(k.coverage, t) == if t == tc && Scored(e) then 1 else 0)
            && TotalDiff(k'.goalScores) - TotalDiff(k.goalScores) == TotalWeight(elements, k'.goals) - TotalWeight(elements, k.goals)
  {
    hide Lookup, TotalDiff, TotalWeight, GoalScore, Base, Award;
    var k' := AfterElement(elements, k, tc, e);
    forall t ensures Base(k'.coverage, t) - Base(k.coverage, t) == if t == tc && Scored(e) then 1 else 0 {
      BaseAward(k.coverage, tc, Score(2, 1), t);
      BaseAward(k.coverage, tc, Score(1, 0), t);
    }
    if e.cur != 0 {
      EdgeConserves(elements, k, tc, Lookup(elements, e.func, e.pred), Lookup(elements, e.func, e.cur));
    } else {
      AwardTotals(k.coverage, tc, Score(1, 0));
      AwardTotals(k.coverage, tc, Score(2, 1));
    }
  }

  /** Scores are conserved over every run of traces. */
  lemma {:induction false} ScoresConserved(elements: Elements, k: Known, events: seq<TraceEvent>)
    requires WellBuilt(elements)
    ensures Conserves(elements, k, AfterAll(elements, k, events), events)
    decreases |events|
  {
    if events != [] {
      hide AfterElement, TotalDiff, TotalWeight, Base;
      var n := |events| - 1;
      ScoresConserved(elements, k, events[..n]);
      ElementConserves(elements, AfterAll(elements, k, events[..n]), events[n].0, events[n].1);
    }
  }

  // ---- the final sets are those of the elements, whatever their order

  function EdgeOf(elements: Elements, e: TraceElement): (Id, Id)
    requires WellBuilt(elements)
  {
    (Lookup(elements, e.func, e.pred), Lookup(elements, e.func, e.cur))
  }

  function EdgesOf(elements: Elements, events: seq<TraceEvent>): set<(Id, Id)>
    requires WellBuilt(elements)
  {
    set ev | ev in events && ev.1.cur != 0 :: EdgeOf(elements, ev.1)
  }

  function FunctionsOf(events: seq<TraceEvent>): set<Id> {
    set ev | ev in events && ev.1.cur == 0 && ev.1.func != 0 :: ev.1.func
  }

  function GoalsOf(elements: Elements, events: seq<TraceEvent>): set<Id>
    requires WellBuilt(elements)
  {
    set ev, id | ev in events && ev.1.cur != 0 && id in BlockGoals(elements, EdgeOf(elements, ev.1).1) :: id
  }

  lemma EdgesOfMore(elements: Elements, before: seq<TraceEvent>, last: TraceEvent)
    requires WellBuilt(elements)
    ensures EdgesOf(elements, before + [last]) ==
            EdgesOf(elements, before) + if last.1.cur != 0 then {EdgeOf(elements, last.1)} else {}
  {
    hide EdgeOf;
    assert forall ev :: ev in before + [last] <==> ev in before || ev == last;
  }

  lemma FunctionsOfMore(before: seq<TraceEvent>, last: TraceEvent)
    ensures FunctionsOf(before + [last]) ==
            FunctionsOf(before) + if last.1.cur == 0 && last.1.func != 0 then {last.1.func} else {}
  {
    assert forall ev :: ev in before + [last] <==> ev in before || ev == last;
  }

  lemma GoalsOfMore(elements: Elements, before: seq<TraceEvent>, last: TraceEvent)
    requires WellBuilt(elements)
    ensures GoalsOf(elements, before + [last]) ==
            GoalsOf(elements, before) + if last.1.cur != 0 then IdsIn(BlockGoals(elements, EdgeOf(elements, last.1).1)) else {}
  {
    hide EdgeOf, BlockGoals;
    assert forall ev :: ev in before + [last] <==> ev in before || ev == last;
  }

  lemma {:induction false} FinalSets(elements: Elements, k: Known, events: seq<TraceEvent>)
    requires WellBuilt(elements)
    ensures var k' := AfterAll(elements, k, events);
            && k'.edges == k.edges + EdgesOf(elements, events)
            && k'.reached == k.reached + FunctionsOf(events)
            && k'.goals == k.goals + GoalsOf(elements, events)
    decreases |events|
  {
    if events != [] {
      var n := |events| - 1;
      var before, last := events[..n], events[n];
      FinalSets(elements, k, before);
      EdgesOfMore(elements, before, last);
      FunctionsOfMore(before, last);
      GoalsOfMore(elements, before, last);
      assert events == before + [last];
      hide Lookup, GoalScore, Award, EdgesOf, FunctionsOf, GoalsOf, IdsIn, BlockGoals;
      assert AfterAll(elements, k, events) == AfterElement(elements, AfterAll(elements, k, before), last.0, last.1);
    }
  }

  // ---- diff scores: who came first

  function DiffOf(m: Scores, tc: Testcase): nat { if tc in m then m[tc].diff else 0 }

  /** An element that shows an edge or a function not among those known. */
  predicate IsNew(elements: Elements, edges: set<(Id, Id)>, reached: set<Id>, e: TraceElement)
    requires WellBuilt(elements)
  {
    if e.cur != 0 then EdgeOf(elements, e) !in edges else e.func != 0 && e.func !in reached
  }

  /** The weight by which the goals of the block that an element enters add to those covered. */
  ghost function NewWeight(elements: Elements, covered: set<Id>, e: TraceElement): int
    requires WellBuilt(elements)
  {
    if e.cur == 0 then 0
    else TotalWeight(elements, covered + IdsIn(BlockGoals(elements, EdgeOf(elements, e).1))) - TotalWeight(elements, covered)
  }

  /** How many edges and functions the testcase was the first to show. */
  function Firsts(elements: Elements, k: Known, events: seq<TraceEvent>, tc: Testcase): nat
    requires WellBuilt(elements)
  {
    if events == [] then 0 else
    var n := |events| - 1;
    var edges, reached := k.edges + EdgesOf(elements, events[..n]), k.reached + FunctionsOf(events[..n]);
    Firsts(elements, k, events[..n], tc) + if events[n].0 == tc && IsNew(elements, edges, reached, events[n].1) then 1 else 0
  }

  /** The weight of the goals that the testcase was the first to cover. */
  ghost function FirstGoals(elements: Elements, k: Known, events: seq<TraceEvent>, tc: Testcase): int
    requires WellBuilt(elements)
  {
    if events == [] then 0 else
    var n := |events| - 1;
    FirstGoals(elements, k, events[..n], tc) +
    if events[n].0 == tc then NewWeight(elements, k.goals + GoalsOf(elements, events[..n]), events[n].1) else 0
  }

  lemma AwardDiff(m: Scores, tc: Testcase, s: Score, t: Testcase)
    ensures DiffOf(Award(m, tc, s), t) == DiffOf(m, t) + if t == tc then s.diff else 0
  {
  }

  lemma ElementFirsts(elements: Elements, k: Known, tc: Testcase, e: TraceElement, t: Testcase)
    requires WellBuilt(elements)
    ensures var k' := AfterElement(elements, k, tc, e);
            && DiffOf(k'.coverage, t) == DiffOf(k.coverage, t) + (if t == tc && IsNew(elements, k.edges, k.reached, e) then 1 else 0)
            && DiffOf(k'.goalScores, t) == DiffOf(k.goalScores, t) + if t == tc then NewWeight(elements, k.goals, e) else 0
  {
    hide Lookup, GoalScore, TotalWeight, DiffOf, Award;
    AwardDiff(k.coverage, tc, Score(1, 0), t);
    AwardDiff(k.coverage, tc, Score(2, 1), t);
    if e.cur != 0 {
      var ids := BlockGoals(elements, EdgeOf(elements, e).1);
      GoalDiffIsNewWeight(elements, k.goals, ids);
      AwardDiff(k.goalScores, tc, GoalScore(elements, k.goals, ids), t);
    }
  }

  /** Over any run the diff scores of each testcase are what it was the first to show: the edges and functions of which
      no earlier element had shown one, and the weight of the goals that no earlier element had covered. */
  lemma {:induction false} DiffsAreFirsts(elements: Elements, k: Known, events: seq<TraceEvent>, tc: Testcase)
    requires WellBuilt(elements)
    ensures var k' := AfterAll(elements, k, events);
            && DiffOf(k'.coverage, tc) == DiffOf(k.coverage, tc) + Firsts(elements, k, events, tc)
            && DiffOf(k'.goalScores, tc) == DiffOf(k.goalScores, tc) + FirstGoals(elements, k, events, tc)
    decreases |events|
  {
    if events != [] {
      hide AfterElement, IsNew, NewWeight, DiffOf, EdgesOf, FunctionsOf, GoalsOf;
      var n := |events| - 1;
      DiffsAreFirsts(elements, k, events[..n], tc);
      FinalSets(elements, k, events[..n]);
      ElementFirsts(elements, AfterAll(elements, k, events[..n]), events[n].0, events[n].1, tc);
    }
  }

  // ---- absolute scores: what the elements earn together, whatever their order

  function Absolutes(m: Scores): Scores { map tc | tc in m :: Score(0, m[tc].absolute) }

  ghost function TotalAbsolute(m: Scores): nat { TotalDiff(Absolutes(m)) }

  function AbsoluteOf(m: Scores, tc: Testcase): nat { if tc in m then m[tc].absolute else 0 }

  /** The weight of the goals of the block that an element enters, covered before or not. */
  function GoalsEntered(elements: Elements, e: TraceElement): nat
    requires WellBuilt(elements)
  {
    if e.cur == 0 then 0 else GoalScore(elements, {}, BlockGoals(elements, EdgeOf(elements, e).1)).absolute
  }

  function ScoredWorth(): TraceEvent -> nat { (ev: TraceEvent) => if Scored(ev.1) then 1 else 0 }

  function GoalWorth(elements: Elements): TraceEvent -> nat
    requires WellBuilt(elements)
  {
    (ev: TraceEvent) => GoalsEntered(elements, ev.1)
  }

  function GoalWorthOf(elements: Elements, tc: Testcase): TraceEvent -> nat
    requires WellBuilt(elements)
  {
    (ev: TraceEvent) => if ev.0 == tc then GoalsEntered(elements, ev.1) else 0
  }

  lemma {:induction false} SumWithout(worth: TraceEvent -> nat, events: seq<TraceEvent>, i: nat)
    requires i < |events|
    ensures Sum(worth, events) == Sum(worth, events[..i] + events[i + 1..]) + worth(events[i])
    decreases |events|
  {
    var n := |events| - 1;
    if i < n {
      SumWithout(worth, events[..n], i);
      assert events[..n][..i] == events[..i];
      assert (events[..i] + events[i + 1..])[..n - 1] == events[..i] + events[..n][i + 1..];
    } else {
      assert events[..i] + events[i + 1..] == events[..n];
    }
  }

  lemma LastTaken(a: seq<TraceEvent>, b: seq<TraceEvent>, i: nat)
    requires a != [] && multiset(a) == multiset(b) && i < |b| && b[i] == a[|a| - 1]
    ensures multiset(a[..|a| - 1]) == multiset(b[..i] + b[i + 1..])
  {
    var x := multiset{b[i]};
    assert a == a[..|a| - 1] + [b[i]];
    assert b == (b[..i] + [b[i]]) + b[i + 1..];
    assert multiset(b) == multiset(b[..i] + b[i + 1..]) + x;
    assert multiset(b) - x == multiset(b[..i] + b[i + 1..]);
    assert multiset(a) - x == multiset(a[..|a| - 1]);
  }

  lemma {:induction false} SumPermuted(worth: TraceEvent -> nat, a: seq<TraceEvent>, b: seq<TraceEvent>)
    requires multiset(a) == multiset(b)
    ensures Sum(worth, a) == Sum(worth, b)
    decreases |a|
  {
    assert |a| == |multiset(a)| == |multiset(b)| == |b|;
    if a != [] {
      var n := |a| - 1;
      assert a[n] in multiset(b);
      var i :| 0 <= i < |b| && b[i] == a[n];
      LastTaken(a, b, i);
      SumPermuted(worth, a[..n], b[..i] + b[i + 1..]);
      SumWithout(worth, b, i);
    }
  }

  lemma {:induction false} AbsoluteIsFixed(elements: Elements, covered: set<Id>, ids: seq<Id>)
    ensures GoalScore(elements, covered, ids).absolute == GoalScore(elements, {}, ids).absolute
    decreases |ids|
  {
    if ids != [] { AbsoluteIsFixed(elements, covered, ids[..|ids| - 1]); }
  }

  /** No stored goal is worthless: entering its block always earns a goal score. */
  lemma {:induction false} EveryGoalScores(elements: Elements, covered: set<Id>, ids: seq<Id>, id: Id)
    requires id in ids && id in elements && elements[id].SummaryElement?
    ensures GoalScore(elements, covered, ids).absolute >= 1
    ensures id !in covered ==> GoalScore(elements, covered, ids).diff >= 1
    decreases |ids|
  {
    var n := |ids| - 1;
    if id in ids[..n] { EveryGoalScores(elements, covered, ids[..n], id); }
  }

  lemma AwardAbsolutes(m: Scores, tc: Testcase, s: Score)
    ensures TotalAbsolute(Award(m, tc, s)) == TotalAbsolute(m) + s.absolute
    ensures forall t :: AbsoluteOf(Award(m, tc, s), t) == AbsoluteOf(m, t) + if t == tc then s.absolute else 0
  {
    AwardTotals(Absolutes(m), tc, Score(0, s.absolute));
    assert Award(Absolutes(m), tc, Score(0, s.absolute)) == Absolutes(Award(m, tc, s));
  }

  ghost predicate Earned(elements: Elements, k: Known, k': Known, events: seq<TraceEvent>)
    requires WellBuilt(elements)
  {
    && TotalAbsolute(k'.coverage) - TotalDiff(k'.coverage) ==
       TotalAbsolute(k.coverage) - TotalDiff(k.coverage) + Sum(ScoredWorth(), events)
    && TotalAbsolute(k'.goalScores) == TotalAbsolute(k.goalScores) + Sum(GoalWorth(elements), events)
    && (forall tc :: AbsoluteOf(k'.goalScores, tc) == AbsoluteOf(k.goalScores, tc) + Sum(GoalWorthOf(elements, tc), events))
  }

  lemma ElementEarns(elements: Elements, k: Known, tc: Testcase, e: TraceElement)
    requires WellBuilt(elements)
    ensures var k', g := AfterElement(elements, k, tc, e), GoalsEntered(elements, e);
            && TotalAbsolute(k'.coverage) - TotalDiff(k'.coverage) ==
               TotalAbsolute(k.coverage) - TotalDiff(k.coverage) + (if Scored(e) then 1 else 0)
            && TotalAbsolute(k'.goalScores) == TotalAbsolute(k.goalScores) + g
            && forall t :: AbsoluteOf(k'.goalScores, t) == AbsoluteOf(k.goalScores, t) + if t == tc then g else 0
  {
    hide Lookup, TotalDiff, TotalAbsolute, GoalScore, AbsoluteOf, Award;
    if e.cur == 0 {
      var s := if e.func in k.reached then Score(1, 0) else Score(2, 1);
      AwardTotals(k.coverage, tc, s);
      AwardAbsolutes(k.coverage, tc, s);
    } else {
      var p, c := Lookup(elements, e.func, e.pred), Lookup(elements, e.func, e.cur);
      var s := if (p, c) in k.edges then Score(1, 0) else Score(2, 1);
      AwardTotals(k.coverage, tc, s);
      AwardAbsolutes(k.coverage, tc, s);
      AbsoluteIsFixed(elements, k.goals, BlockGoals(elements, c));
      AwardAbsolutes(k.goalScores, tc, GoalScore(elements, k.goals, BlockGoals(elements, c)));
    }
  }

  /** Over any run: in all, one more point than diff points per scored element, and the weight of the goals entered. */
  lemma {:induction false} ScoresEarned(elements: Elements, k: Known, events: seq<TraceEvent>)
    requires WellBuilt(elements)
    ensures Earned(elements, k, AfterAll(elements, k, events), events)
    decreases |events|
  {
    if events != [] {
      hide AfterElement, TotalDiff, TotalAbsolute, GoalsEntered, AbsoluteOf;
      var n := |events| - 1;
      ScoresEarned(elements, k, events[..n]);
      ElementEarns(elements, AfterAll(elements, k, events[..n]), events[n].0, events[n].1);
    }
  }

  /** The same elements in any order, any number of times: the same final sets and the same diff totals. */
  lemma SameSets(elements: Elements, k: Known, a: seq<TraceEvent>, b: seq<TraceEvent>)
    requires WellBuilt(elements)
    requires forall ev :: ev in a <==> ev in b
    ensures var ka, kb := AfterAll(elements, k, a), AfterAll(elements, k, b);
            && ka.edges == kb.edges && ka.reached == kb.reached && ka.goals == kb.goals
            && TotalDiff(ka.coverage) == TotalDiff(kb.coverage) && TotalDiff(ka.goalScores) == TotalDiff(kb.goalScores)
  {
    hide AfterElement, AfterAll, TotalDiff, Base, Sum;
    FinalSets(elements, k, a);
    FinalSets(elements, k, b);
    ScoresConserved(elements, k, a);
    ScoresConserved(elements, k, b);
    assert EdgesOf(elements, a) == EdgesOf(elements, b);
    assert FunctionsOf(a) == FunctionsOf(b);
    assert GoalsOf(elements, a) == GoalsOf(elements, b);
  }

  lemma SameSums(elements: Elements, a: seq<TraceEvent>, b: seq<TraceEvent>, tc: Testcase)
    requires WellBuilt(elements) && multiset(a) == multiset(b)
    ensures Sum(ScoredWorth(), a) == Sum(ScoredWorth(), b) && Sum(GoalWorth(elements), a) == Sum(GoalWorth(elements), b)
    ensures Sum(GoalWorthOf(elements, tc), a) == Sum(GoalWorthOf(elements, tc), b)
    ensures Sum(ScoredWorthOf(tc), a) == Sum(ScoredWorthOf(tc), b)
  {
    SumPermuted(ScoredWorth(), a, b);
    SumPermuted(GoalWorth(elements), a, b);
    SumPermuted(GoalWorthOf(elements, tc), a, b);
    SumPermuted(ScoredWorthOf(tc), a, b);
  }

  /** The same elements, each as often, in any order: also the same absolute totals, and of every testcase the same
      absolute goal score and the same coverage score beyond its diff. */
  lemma OrderIndependent(elements: Elements, k: Known, a: seq<TraceEvent>, b: seq<TraceEvent>)
    requires WellBuilt(elements)
    requires forall ev :: ev in a <==> ev in b
    ensures var ka, kb := AfterAll(elements, k, a), AfterAll(elements, k, b);
            && ka.edges == kb.edges && ka.reached == kb.reached && ka.goals == kb.goals
            && TotalDiff(ka.coverage) == TotalDiff(kb.coverage) && TotalDiff(ka.goalScores) == TotalDiff(kb.goalScores)
            && (multiset(a) == multiset(b) ==>
                  && TotalAbsolute(ka.coverage) == TotalAbsolute(kb.coverage)
                  && TotalAbsolute(ka.goalScores) == TotalAbsolute(kb.goalScores)
                  && forall tc :: AbsoluteOf(ka.goalScores, tc) == AbsoluteOf(kb.goalScores, tc)
                                  && Base(ka.coverage, tc) == Base(kb.coverage, tc))
  {
    hide AfterElement, AfterAll, TotalDiff, TotalAbsolute, Base, AbsoluteOf, Sum, ScoredWorth, GoalWorth, GoalWorthOf, ScoredWorthOf;
    SameSets(elements, k, a, b);
    if multiset(a) == multiset(b) {
      ScoresEarned(elements, k, a);
      ScoresEarned(elements, k, b);
      ScoresConserved(elements, k, a);
      ScoresConserved(elements, k, b);
      SameSums(elements, a, b, 0);
      forall tc ensures Sum(GoalWorthOf(elements, tc), a) == Sum(GoalWorthOf(elements, tc), b)
                        && Sum(ScoredWorthOf(tc), a) == Sum(ScoredWorthOf(tc), b) {
        SameSums(elements, a, b, tc);
      }
    }
  }
}
