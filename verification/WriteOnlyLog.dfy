/** The log of the instrumentation is write-only: states that differ in nothing else run alike and append the same
    events. It makes the place of an event, before or behind an expression, a matter of the trace alone. */
module WriteOnlyLog {
  import opened Instrument
  import opened Prelude

  /** b is a, and b2 is a2, with the same events behind. */
  ghost predicate Grown(a: Trail<Event>, b: Trail<Event>, a2: Trail<Event>, b2: Trail<Event>)
    decreases b
  {
    || (b == a && b2 == a2)
    || (b.Then? && b2.Then? && b.last == b2.last && Grown(a, b.before, a2, b2.before))
  }

  lemma {:induction false} GrownThrough(a: Trail<Event>, b: Trail<Event>, c: Trail<Event>,
                                        a2: Trail<Event>, b2: Trail<Event>, c2: Trail<Event>)
    requires Grown(a, b, a2, b2) && Grown(b, c, b2, c2)
    ensures Grown(a, c, a2, c2)
    decreases c
  {
    if c != b || c2 != b2 { GrownThrough(a, b, c.before, a2, b2, c2.before); }
  }

  function Size<T>(t: Trail<T>): nat {
    if t.Start? then 0 else Size(t.before) + 1
  }

  lemma {:induction false} GrownSize(a: Trail<Event>, b: Trail<Event>, a2: Trail<Event>, b2: Trail<Event>)
    requires Grown(a, b, a2, b2)
    ensures Size(b) - Size(a) == Size(b2) - Size(a2) >= 0 && (Size(b) == Size(a) ==> b == a && b2 == a2)
    decreases b
  {
    if b != a || b2 != a2 { GrownSize(a, b.before, a2, b2.before); }
  }

  lemma {:induction false} GrownMarks(a: Trail<Event>, b: Trail<Event>, a2: Trail<Event>, b2: Trail<Event>)
    requires Grown(a, b, a2, b2)
    ensures Marks(Erase(b2)) + Marks(Erase(a)) == Marks(Erase(b)) + Marks(Erase(a2))
    decreases b
  {
    if b != a || b2 != a2 {
      GrownMarks(a, b.before, a2, b2.before);
      OneMore(Marks(Erase(b.before)), Marks(Erase(a)), Marks(Erase(b2.before)), Marks(Erase(a2)), EraseEvent(b.last));
    }
  }

  lemma OneMore<T>(b: multiset<T>, a: multiset<T>, b2: multiset<T>, a2: multiset<T>, x: T)
    requires b2 + a == b + a2
    ensures (b2 + multiset{x}) + a == (b + multiset{x}) + a2
  {
    assert (b2 + multiset{x}) + a == (b2 + a) + multiset{x};
    assert (b + multiset{x}) + a2 == (b + a2) + multiset{x};
  }

  /** Two states that differ in the log only. */
  ghost predicate Alike<U>(s: State<U>, t: State<U>) { t == s.(log := t.log) }

  ghost predicate BlindV<U>(s: State<U>, t: State<U>, r: Value<U>, r2: Value<U>) {
    r.v == r2.v && Alike(r.s, r2.s) && Grown(s.log, r.s.log, t.log, r2.s.log)
  }

  ghost predicate Blind<U>(s: State<U>, t: State<U>, r: Done<U>, r2: Done<U>) {
    r.o == r2.o && Alike(r.s, r2.s) && Grown(s.log, r.s.log, t.log, r2.s.log)
  }

  lemma BlindVThen<U>(s: State<U>, t: State<U>, r: Value<U>, r2: Value<U>, w: Value<U>, w2: Value<U>)
    requires BlindV(s, t, r, r2) && BlindV(r.s, r2.s, w, w2)
    ensures BlindV(s, t, w, w2)
  {
    GrownThrough(s.log, r.s.log, w.s.log, t.log, r2.s.log, w2.s.log);
  }

  lemma BlindThen<U>(s: State<U>, t: State<U>, m: State<U>, m2: State<U>, w: Done<U>, w2: Done<U>)
    requires Alike(m, m2) && Grown(s.log, m.log, t.log, m2.log) && Blind(m, m2, w, w2)
    ensures Blind(s, t, w, w2)
  {
    GrownThrough(s.log, m.log, w.s.log, t.log, m2.log, w2.s.log);
  }

  lemma {:induction false} BlindE<U>(p: Program, h: Host<U>, n: nat, e: Expr, s: State<U>, t: State<U>)
    requires Alike(s, t)
    ensures BlindV(s, t, EvalE(p, h, n, e, s), EvalE(p, h, n, e, t))
    decreases n, 0, e
  {
    match e
    case Op(_) =>
    case Bin(_, left, right) =>
      BlindE(p, h, n, left, s, t);
      var r, r2 := EvalE(p, h, n, left, s), EvalE(p, h, n, left, t);
      if r.v.Some? {
        BlindE(p, h, n, right, r.s, r2.s);
        BlindVThen(s, t, r, r2, EvalE(p, h, n, right, r.s), EvalE(p, h, n, right, r2.s));
      }
    case Cond(test, thn, els) =>
      BlindE(p, h, n, test, s, t);
      var r, r2 := EvalE(p, h, n, test, s), EvalE(p, h, n, test, t);
      if r.v.Some? {
        var e' := if r.v.value != 0 then thn else els;
        BlindE(p, h, n, e', r.s, r2.s);
        BlindVThen(s, t, r, r2, EvalE(p, h, n, e', r.s), EvalE(p, h, n, e', r2.s));
      }
    case Call(callee, arg) =>
      BlindE(p, h, n, arg, s, t);
      var r, r2 := EvalE(p, h, n, arg, s), EvalE(p, h, n, arg, t);
      if r.v.Some? && callee in p && n > 0 {
        BlindActivate(p, h, n - 1, callee, r.v.value, r.s, r2.s);
        BlindVThen(s, t, r, r2, Activate(p, h, n - 1, callee, r.v.value, r.s), Activate(p, h, n - 1, callee, r.v.value, r2.s));
      }
  }

  lemma {:induction false} BlindActivate<U>(p: Program, h: Host<U>, n: nat, f: FuncId, arg: int, s: State<U>, t: State<U>)
    requires f in p && Alike(s, t)
    ensures BlindV(s, t, Activate(p, h, n, f, arg, s), Activate(p, h, n, f, arg, t))
    decreases n, 2
  {
    var s0 := State(h.bind(f, arg, s.user), 0, 0, s.log, Then(s.seen, CallMark(f)));
    BlindL(p, h, n, f, p[f].body, s0, s0.(log := t.log));
  }

  lemma {:induction false} BlindL<U>(p: Program, h: Host<U>, n: nat, f: FuncId, l: List, s: State<U>, t: State<U>)
    requires Alike(s, t)
    ensures Blind(s, t, ExecL(p, h, n, f, l, s), ExecL(p, h, n, f, l, t))
    decreases n, 1, l, 0
  {
    if l.Cons? {
      BlindS(p, h, n, f, l.head, s, t);
      var r, r2 := ExecS(p, h, n, f, l.head, s), ExecS(p, h, n, f, l.head, t);
      if r.o.Normal? {
        BlindL(p, h, n, f, l.tail, r.s, r2.s);
        BlindThen(s, t, r.s, r2.s, ExecL(p, h, n, f, l.tail, r.s), ExecL(p, h, n, f, l.tail, r2.s));
      }
    }
  }

  lemma {:induction false} BlindS<U>(p: Program, h: Host<U>, n: nat, f: FuncId, x: Stmt, s: State<U>, t: State<U>)
    requires Alike(s, t)
    ensures Blind(s, t, ExecS(p, h, n, f, x, s), ExecS(p, h, n, f, x, t))
    decreases n, 1, x, 1
  {
    match x
    case Eval(e) => BlindE(p, h, n, e, s, t);
    case Compound(items) => BlindL(p, h, n, f, items, s, t);
    case If(_, _, _, _, _) => BlindIf(p, h, n, f, x, s, t);
    case While(test, body, block) => BlindLoop(p, h, n, f, true, test, None, body, block, s, t);
    case DoWhile(body, block, test) => BlindLoop(p, h, n, f, false, test, None, body, block, s, t);
    case For(_, _, _, _, _) => BlindFor(p, h, n, f, x, s, t);
    case Switch(subject, body) => BlindSwitch(p, h, n, f, subject, body, s, t);
    case Case(_, sub, block) => BlindMarked(p, h, n, f, sub, block, s, t, s, t);
    case Default(sub, block) => BlindMarked(p, h, n, f, sub, block, s, t, s, t);
    case Label(sub, block) => BlindMarked(p, h, n, f, sub, block, s, t, s, t);
    case Return(value) => if value.Some? { BlindE(p, h, n, value.value, s, t); }
    case SetRet(e) => BlindE(p, h, n, e, s, t);
    case _ =>
  }

  lemma {:induction false} BlindIf<U>(p: Program, h: Host<U>, n: nat, f: FuncId, x: Stmt, s: State<U>, t: State<U>)
    requires x.If? && Alike(s, t)
    ensures Blind(s, t, ExecS(p, h, n, f, x, s), ExecS(p, h, n, f, x, t))
    decreases n, 1, x, 0
  {
    BlindE(p, h, n, x.test, s, t);
    var r, r2 := EvalE(p, h, n, x.test, s), EvalE(p, h, n, x.test, t);
    if r.v.Some? {
      if r.v.value != 0 {
        BlindMarked(p, h, n, f, x.thn, x.thnBlock, s, t, r.s, r2.s);
      } else if x.els.Some? {
        BlindMarked(p, h, n, f, x.els.value, x.elsBlock, s, t, r.s, r2.s);
      }
    }
  }

  lemma {:induction false} BlindFor<U>(p: Program, h: Host<U>, n: nat, f: FuncId, x: Stmt, s: State<U>, t: State<U>)
    requires x.For? && Alike(s, t)
    ensures Blind(s, t, ExecS(p, h, n, f, x, s), ExecS(p, h, n, f, x, t))
    decreases n, 1, x, 0
  {
    BlindE(p, h, n, x.init, s, t);
    var r, r2 := EvalE(p, h, n, x.init, s), EvalE(p, h, n, x.init, t);
    if r.v.Some? {
      BlindLoop(p, h, n, f, true, x.test, Some(x.step), x.body, x.block, r.s, r2.s);
      BlindThen(s, t, r.s, r2.s, Loop(p, h, n, f, true, x.test, Some(x.step), x.body, x.block, r.s),
                Loop(p, h, n, f, true, x.test, Some(x.step), x.body, x.block, r2.s));
    }
  }

  lemma {:induction false} BlindMarked<U>(p: Program, h: Host<U>, n: nat, f: FuncId, x: Stmt, b: BlockId,
                                          s: State<U>, t: State<U>, m: State<U>, m2: State<U>)
    requires Alike(m, m2) && Grown(s.log, m.log, t.log, m2.log)
    ensures Blind(s, t, ExecS(p, h, n, f, x, m.Mark(BlockMark(f, b))), ExecS(p, h, n, f, x, m2.Mark(BlockMark(f, b))))
    decreases n, 1, x, 2
  {
    var k, k2 := m.Mark(BlockMark(f, b)), m2.Mark(BlockMark(f, b));
    BlindS(p, h, n, f, x, k, k2);
    BlindThen(s, t, k, k2, ExecS(p, h, n, f, x, k), ExecS(p, h, n, f, x, k2));
  }

  lemma {:induction false} BlindLoop<U>(p: Program, h: Host<U>, n: nat, f: FuncId, testFirst: bool, test: Expr,
                                        step: Option<Expr>, body: Stmt, block: BlockId, s: State<U>, t: State<U>)
    requires Alike(s, t)
    ensures Blind(s, t, Loop(p, h, n, f, testFirst, test, step, body, block, s),
                  Loop(p, h, n, f, testFirst, test, step, body, block, t))
    decreases n, 1, body, 4
  {
    if n == 0 { return; }
    if testFirst {
      LoopTests(p, h, n, f, test, step, body, block, s);
      LoopTests(p, h, n, f, test, step, body, block, t);
    }
    hide Round, Grown, EvalE;
    if testFirst {
      BlindE(p, h, n, test, s, t);
      var r, r2 := EvalE(p, h, n, test, s), EvalE(p, h, n, test, t);
      if r.v.Some? && r.v.value != 0 {
        BlindRound(p, h, n, f, test, step, body, block, r.s, r2.s);
        BlindThen(s, t, r.s, r2.s, Round(p, h, n, f, test, step, body, block, r.s),
                  Round(p, h, n, f, test, step, body, block, r2.s));
      }
    } else {
      BlindRound(p, h, n, f, test, step, body, block, s, t);
    }
  }

  lemma {:induction false} BlindRound<U>(p: Program, h: Host<U>, n: nat, f: FuncId, test: Expr, step: Option<Expr>,
                                         body: Stmt, block: BlockId, s: State<U>, t: State<U>)
    requires n > 0 && Alike(s, t)
    ensures Blind(s, t, Round(p, h, n, f, test, step, body, block, s), Round(p, h, n, f, test, step, body, block, t))
    decreases n, 1, body, 3
  {
    hide ExecS, Round, Onward;
    RoundRuns(p, h, n, f, test, step, body, block, s);
    RoundRuns(p, h, n, f, test, step, body, block, t);
    BlindMarked(p, h, n, f, body, block, s, t, s, t);
    var r := ExecS(p, h, n, f, body, s.Mark(BlockMark(f, block)));
    var r2 := ExecS(p, h, n, f, body, t.Mark(BlockMark(f, block)));
    if r.o.Normal? || r.o.Continued? { BlindOn(p, h, n, f, test, step, body, block, s, t, r.s, r2.s); }
  }

  /** What follows a round: the step, and the loop again. */
  lemma {:induction false} BlindOn<U>(p: Program, h: Host<U>, n: nat, f: FuncId, test: Expr, step: Option<Expr>,
                                      body: Stmt, block: BlockId, s: State<U>, t: State<U>, m: State<U>, m2: State<U>)
    requires n > 0 && Alike(m, m2) && Grown(s.log, m.log, t.log, m2.log)
    ensures Blind(s, t, Onward(p, h, n, f, test, step, body, block, m), Onward(p, h, n, f, test, step, body, block, m2))
    decreases n, 1, body, 2
  {
    if step.None? {
      BlindLoop(p, h, n - 1, f, true, test, step, body, block, m, m2);
      BlindThen(s, t, m, m2, Loop(p, h, n - 1, f, true, test, step, body, block, m),
                Loop(p, h, n - 1, f, true, test, step, body, block, m2));
    } else {
      BlindStep(p, h, n, f, test, step, body, block, m, m2);
      BlindThen(s, t, m, m2, Onward(p, h, n, f, test, step, body, block, m), Onward(p, h, n, f, test, step, body, block, m2));
    }
  }

  lemma {:induction false} BlindStep<U>(p: Program, h: Host<U>, n: nat, f: FuncId, test: Expr, step: Option<Expr>,
                                        body: Stmt, block: BlockId, s: State<U>, t: State<U>)
    requires n > 0 && step.Some? && Alike(s, t)
    ensures Blind(s, t, Onward(p, h, n, f, test, step, body, block, s), Onward(p, h, n, f, test, step, body, block, t))
    decreases n, 1, body, 1
  {
    BlindE(p, h, n, step.value, s, t);
    var w, w2 := EvalE(p, h, n, step.value, s), EvalE(p, h, n, step.value, t);
    if w.v.Some? {
      BlindLoop(p, h, n - 1, f, true, test, step, body, block, w.s, w2.s);
      BlindThen(s, t, w.s, w2.s, Loop(p, h, n - 1, f, true, test, step, body, block, w.s),
                Loop(p, h, n - 1, f, true, test, step, body, block, w2.s));
    }
  }

  lemma {:induction false} BlindSwitch<U>(p: Program, h: Host<U>, n: nat, f: FuncId, subject: Expr, body: Stmt,
                                          s: State<U>, t: State<U>)
    requires Alike(s, t)
    ensures Blind(s, t, ExecS(p, h, n, f, Switch(subject, body), s), ExecS(p, h, n, f, Switch(subject, body), t))
    decreases n, 1, body, 4
  {
    BlindE(p, h, n, subject, s, t);
    var r, r2 := EvalE(p, h, n, subject, s), EvalE(p, h, n, subject, t);
    if r.v.Some? {
      BlindDispatch(p, h, n, f, body, r.v.value, r.s, r2.s);
      BlindThen(s, t, r.s, r2.s, Dispatch(p, h, n, f, body, r.v.value, r.s), Dispatch(p, h, n, f, body, r.v.value, r2.s));
    }
  }

  lemma {:induction false} BlindDispatch<U>(p: Program, h: Host<U>, n: nat, f: FuncId, body: Stmt, v: int,
                                            s: State<U>, t: State<U>)
    requires Alike(s, t)
    ensures Blind(s, t, Dispatch(p, h, n, f, body, v, s), Dispatch(p, h, n, f, body, v, t))
    decreases n, 1, body, 3
  {
    if body.Compound? {
      BlindFrom(p, h, n, f, body.items, Target(HitsL(body.items, Some(v)), v), s, t);
    } else {
      var u := Target(Hits(body, Some(v)), v);
      if Hits(body, u) { BlindAt(p, h, n, f, body, u, s, t); }
    }
  }

  lemma {:induction false} BlindFrom<U>(p: Program, h: Host<U>, n: nat, f: FuncId, l: List, v: Option<int>,
                                        s: State<U>, t: State<U>)
    requires Alike(s, t)
    ensures Blind(s, t, ExecFrom(p, h, n, f, l, v, s), ExecFrom(p, h, n, f, l, v, t))
    decreases n, 1, l, 1
  {
    if l.Nil? { return; }
    if Hits(l.head, v) {
      BlindAt(p, h, n, f, l.head, v, s, t);
      var r, r2 := ExecAt(p, h, n, f, l.head, v, s), ExecAt(p, h, n, f, l.head, v, t);
      if r.o.Normal? {
        BlindL(p, h, n, f, l.tail, r.s, r2.s);
        BlindThen(s, t, r.s, r2.s, ExecL(p, h, n, f, l.tail, r.s), ExecL(p, h, n, f, l.tail, r2.s));
      }
    } else {
      BlindFrom(p, h, n, f, l.tail, v, s, t);
    }
  }

  lemma {:induction false} BlindAt<U>(p: Program, h: Host<U>, n: nat, f: FuncId, x: Stmt, v: Option<int>,
                                      s: State<U>, t: State<U>)
    requires Hits(x, v) && Alike(s, t)
    ensures Blind(s, t, ExecAt(p, h, n, f, x, v, s), ExecAt(p, h, n, f, x, v, t))
    decreases n, 1, x, 2
  {
    if (x.Case? && v == Some(x.tag)) || (x.Default? && v.None?) {
      BlindS(p, h, n, f, x, s, t);
    } else {
      BlindAt(p, h, n, f, x.sub, v, s, t);
    }
  }
}
