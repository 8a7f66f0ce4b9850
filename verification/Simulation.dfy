/** The instrumented program simulates the source program, statement by statement (clang-instrument/instrument.cpp). The
    relation has two halves: outcome, user state and history; and the emitted log, which always nests and chains, and
    of which a setup may claim more. */
module Simulation {
  import opened Instrument
  import opened Prelude
  import opened WriteOnlyLog

  /** The log tells the history so far, as far as the setup claims. */
  ghost predicate Tells(c: Setup, log: Trail<Event>, seen: Trail<Mark>) {
    match c.claim
    case Nests => true
    case Tallies => Marks(Erase(log)) == Marks(Restrict(c.chosen, seen))
    case Exact => Erase(log) == Restrict(c.chosen, seen)
  }

  /** The instrumented state s' does what s does, and its log is the history so far, with `open` still open. */
  ghost predicate Tied<U>(c: Setup, open: Trail<Frame>, s: State<U>, s': State<U>) {
    && s.user == s'.user && s.seen == s'.seen && Known(c, s.seen)
    && Scan(s'.log) == Some(open) && Tells(c, s'.log, s'.seen)
  }

  /** The history is about functions of the program. */
  ghost predicate Known(c: Setup, seen: Trail<Mark>) { Restrict(c.p.Keys, seen) == seen }

  /** The log of a run that was cut off. It can be one exit ahead, when the cut comes behind the exit of a void return
      that calls a function of the program. */
  ghost predicate UpTo(c: Setup, log: Trail<Event>, seen: Trail<Mark>) {
    || Erase(log) == Restrict(c.chosen, seen)
    || (!(c.p.Keys <= c.loud) && log.Then? && log.last.Exit? && Erase(log.before) == Restrict(c.chosen, seen))
  }

  ghost predicate CutOff<U>(c: Setup, s: State<U>, s': State<U>) {
    && s.user == s'.user && s.seen == s'.seen && Known(c, s.seen)
    && Scan(s'.log).Some? && (c.claim.Exact? ==> UpTo(c, s'.log, s'.seen))
  }

  /** Nothing was emitted on the way, and nothing should have been. */
  ghost predicate Silent<U>(c: Setup, s': State<U>, t': State<U>) {
    c.claim.Exact? ==> t'.log == s'.log && Restrict(c.chosen, t'.seen) == Restrict(c.chosen, s'.seen)
  }

  /** Source result r and instrumented result r' inside one activation of f, above the frames `rest`. */
  ghost predicate Sim<U>(c: Setup, f: FuncId, rest: Trail<Frame>, r: Done<U>, r': Done<U>) {
    && r.o == r'.o
    && (match r'.o
        case Returned(_) =>
          && r.s.user == r'.s.user && r.s.seen == r'.s.seen && Known(c, r.s.seen)
          && Scan(r'.s.log) == Some(rest) && Tells(c, r'.s.log, Then(r'.s.seen, ReturnMark(f)))
        case Stuck => CutOff(c, r.s, r'.s)
        case _ => Linked(c, f, rest, r.s, r'.s))
  }

  ghost predicate Linked<U>(c: Setup, f: FuncId, rest: Trail<Frame>, s: State<U>, s': State<U>) {
    Tied(c, Then(rest, Frame(f, s'.pred)), s, s')
  }

  /** The same for a function that is left alone. */
  ghost predicate SimPlain<U>(c: Setup, f: FuncId, open: Trail<Frame>, s': State<U>, r: Done<U>, r': Done<U>) {
    && r.o == r'.o
    && (if r'.o.Stuck? then CutOff(c, r.s, r'.s) else Tied(c, open, r.s, r'.s))
    && (f !in c.loud ==> Silent(c, s', r'.s))
  }

  /** One function under the rules of its setup. */
  ghost predicate Governed(c: Setup, f: FuncId) { Fits(c) && f in c.p }

  ghost predicate Contained(o: Outcome, brk: bool, cont: bool) {
    (o.Broke? ==> brk) && (o.Continued? ==> cont)
  }

  lemma {:induction false} ExecAppend<U>(p: Program, h: Host<U>, n: nat, f: FuncId, a: List, b: List, s: State<U>)
    ensures ExecL(p, h, n, f, Append(a, b), s) ==
            var Done(o, s1) := ExecL(p, h, n, f, a, s);
            if o.Normal? then ExecL(p, h, n, f, b, s1) else Done(o, s1)
    decreases a
  {
    if a.Cons? {
      var Done(o, s1) := ExecS(p, h, n, f, a.head, s);
      ExecAppend(p, h, n, f, a.tail, b, s1);
    }
  }

  // ---- expressions and calls

  lemma {:induction false} SimE<U>(c: Setup, h: Host<U>, n: nat, e: Expr, open: Trail<Frame>, s: State<U>, s': State<U>)
    requires Fits(c) && Tied(c, open, s, s')
    ensures var r, r' := EvalE(c.p, h, n, e, s), EvalE(c.Q(), h, n, e, s');
            && r.v == r'.v
            && (if r.v.Some? then Tied(c, open, r.s, r'.s) && r'.s.pred == s'.pred && r'.s.ret == s'.ret
                else CutOff(c, r.s, r'.s) && Mentions(c.p.Keys, e))
            && (!Mentions(c.loud, e) ==> Silent(c, s', r'.s))
    decreases n, 0, e
  {
    match e
    case Op(_) =>
    case Bin(_, left, right) =>
      SimE(c, h, n, left, open, s, s');
      var r, r' := EvalE(c.p, h, n, left, s), EvalE(c.Q(), h, n, left, s');
      if r.v.Some? { SimE(c, h, n, right, open, r.s, r'.s); }
    case Cond(test, thn, els) =>
      SimE(c, h, n, test, open, s, s');
      var r, r' := EvalE(c.p, h, n, test, s), EvalE(c.Q(), h, n, test, s');
      if r.v.Some? { SimE(c, h, n, if r.v.value != 0 then thn else els, open, r.s, r'.s); }
    case Call(callee, arg) =>
      SimE(c, h, n, arg, open, s, s');
      var r, r' := EvalE(c.p, h, n, arg, s), EvalE(c.Q(), h, n, arg, s');
      if r.v.Some? && callee in c.p && n > 0 { SimActivate(c, h, n - 1, callee, r.v.value, open, r.s, r'.s); }
  }

  ghost predicate SimCall<U>(c: Setup, f: FuncId, open: Trail<Frame>, s': State<U>, r: Value<U>, r': Value<U>) {
    && r.v == r'.v
    && (if r.v.Some? then Tied(c, open, r.s, r'.s) && r'.s.pred == s'.pred && r'.s.ret == s'.ret
        else CutOff(c, r.s, r'.s))
    && (f !in c.loud ==> Silent(c, s', r'.s))
  }

  lemma {:induction false} SimActivate<U>(c: Setup, h: Host<U>, n: nat, f: FuncId, arg: int, open: Trail<Frame>,
                                          s: State<U>, s': State<U>)
    requires Governed(c, f) && Tied(c, open, s, s')
    ensures SimCall(c, f, open, s', Activate(c.p, h, n, f, arg, s), Activate(c.Q(), h, n, f, arg, s'))
    decreases n, 3
  {
    if f in c.chosen { SimChosen(c, h, n, f, arg, open, s, s'); } else { SimLeftAlone(c, h, n, f, arg, open, s, s'); }
  }

  lemma {:induction false} SimLeftAlone<U>(c: Setup, h: Host<U>, n: nat, f: FuncId, arg: int, open: Trail<Frame>,
                                           s: State<U>, s': State<U>)
    requires Governed(c, f) && f !in c.chosen && Tied(c, open, s, s')
    ensures SimCall(c, f, open, s', Activate(c.p, h, n, f, arg, s), Activate(c.Q(), h, n, f, arg, s'))
    decreases n, 2
  {
    var s0 := State(h.bind(f, arg, s.user), 0, 0, s.log, Then(s.seen, CallMark(f)));
    var s0' := State(h.bind(f, arg, s'.user), 0, 0, s'.log, Then(s'.seen, CallMark(f)));
    PlainL(c, h, n, f, c.p[f].body, false, false, open, s0, s0');
  }

  lemma {:induction false} NeverFallsOff<U>(p: Program, h: Host<U>, n: nat, f: FuncId, l: List, s: State<U>)
    requires EndsInReturn(l)
    ensures !ExecL(p, h, n, f, l, s).o.Normal?
    decreases l
  {
    var Done(o, s1) := ExecS(p, h, n, f, l.head, s);
    if l.tail.Cons? && o.Normal? { NeverFallsOff(p, h, n, f, l.tail, s1); }
  }

  lemma Prologue<U>(q: Program, h: Host<U>, n: nat, f: FuncId, l: List, s: State<U>)
    requires s.pred == 0
    ensures ExecL(q, h, n, f, Cons(SetPred(0), Cons(EnterFunc(f), l)), s) == ExecL(q, h, n, f, l, s.Emit(Enter(f)))
  {
    Next(q, h, n, f, SetPred(0), Cons(EnterFunc(f), l), s);
    Next(q, h, n, f, EnterFunc(f), l, s);
  }

  lemma {:induction false} SimChosen<U>(c: Setup, h: Host<U>, n: nat, f: FuncId, arg: int, open: Trail<Frame>,
                                        s: State<U>, s': State<U>)
    requires Governed(c, f) && f in c.chosen && Tied(c, open, s, s')
    ensures SimCall(c, f, open, s', Activate(c.p, h, n, f, arg, s), Activate(c.Q(), h, n, f, arg, s'))
    decreases n, 2
  {
    var q := c.Q();
    var fn := c.p[f];
    var s0 := State(h.bind(f, arg, s.user), 0, 0, s.log, Then(s.seen, CallMark(f)));
    var s0' := State(h.bind(f, arg, s'.user), 0, 0, s'.log, Then(s'.seen, CallMark(f)));
    var s1' := s0'.Emit(Enter(f));
    var body := InstrL(f, fn.hasRet, fn.body);
    var epilogue := if EndsInReturn(fn.body) then Nil else Cons(ExitFunc(f), Nil);
    Prologue(q, h, n, f, Append(body, epilogue), s0');
    SimL(c, h, n, f, false, false, fn.body, open, s0, s1');
    ExecAppend(q, h, n, f, body, epilogue, s1');
    if EndsInReturn(fn.body) { NeverFallsOff(c.p, h, n, f, fn.body, s0); }
    var Done(o, t') := ExecL(q, h, n, f, body, s1');
    if o.Normal? { Single(q, h, n, f, ExitFunc(f), t'); }
  }

  // ---- functions that are left alone

  lemma {:induction false} PlainL<U>(c: Setup, h: Host<U>, n: nat, f: FuncId, l: List, brk: bool, cont: bool,
                                     open: Trail<Frame>, s: State<U>, s': State<U>)
    requires Governed(c, f) && f !in c.chosen && WellFormedL(c.RulesOf(f), l, brk, cont) && Tied(c, open, s, s')
    ensures SimPlain(c, f, open, s', ExecL(c.p, h, n, f, l, s), ExecL(c.Q(), h, n, f, l, s'))
    decreases n, 1, l, 0
  {
    if l.Cons? {
      PlainS(c, h, n, f, l.head, brk, cont, open, s, s');
      var r, r' := ExecS(c.p, h, n, f, l.head, s), ExecS(c.Q(), h, n, f, l.head, s');
      if r.o.Normal? { PlainL(c, h, n, f, l.tail, brk, cont, open, r.s, r'.s); }
    }
  }

  /** A body and the mark in front of it, which belongs to no instrumented function. */
  lemma {:induction false} PlainBody<U>(c: Setup, h: Host<U>, n: nat, f: FuncId, x: Stmt, b: BlockId, brk: bool, cont: bool,
                                        open: Trail<Frame>, s: State<U>, s': State<U>)
    requires Governed(c, f) && f !in c.chosen && WellFormed(c.RulesOf(f), x, brk, cont) && Tied(c, open, s, s')
    ensures SimPlain(c, f, open, s', ExecS(c.p, h, n, f, x, s.Mark(BlockMark(f, b))),
                     ExecS(c.Q(), h, n, f, x, s'.Mark(BlockMark(f, b))))
    decreases n, 1, x, 2
  {
    PlainS(c, h, n, f, x, brk, cont, open, s.Mark(BlockMark(f, b)), s'.Mark(BlockMark(f, b)));
  }

  lemma {:induction false} PlainS<U>(c: Setup, h: Host<U>, n: nat, f: FuncId, x: Stmt, brk: bool, cont: bool,
                                     open: Trail<Frame>, s: State<U>, s': State<U>)
    requires Governed(c, f) && f !in c.chosen && WellFormed(c.RulesOf(f), x, brk, cont) && Tied(c, open, s, s')
    ensures SimPlain(c, f, open, s', ExecS(c.p, h, n, f, x, s), ExecS(c.Q(), h, n, f, x, s'))
    decreases n, 1, x, 1
  {
    match x
    case Eval(e) => SimE(c, h, n, e, open, s, s');
    case Compound(items) => PlainL(c, h, n, f, items, brk, cont, open, s, s');
    case If(test, thn, thnBlock, els, elsBlock) =>
      SimE(c, h, n, test, open, s, s');
      var r, r' := EvalE(c.p, h, n, test, s), EvalE(c.Q(), h, n, test, s');
      if r.v.Some? {
        if r.v.value != 0 {
          PlainBody(c, h, n, f, thn, thnBlock, brk, cont, open, r.s, r'.s);
        } else if els.Some? {
          PlainBody(c, h, n, f, els.value, elsBlock, brk, cont, open, r.s, r'.s);
        }
      }
    case While(test, body, block) => PlainLoop(c, h, n, f, true, test, None, body, block, open, s, s');
    case DoWhile(body, block, test) => PlainLoop(c, h, n, f, false, test, None, body, block, open, s, s');
    case For(init, test, step, body, block) =>
      SimE(c, h, n, init, open, s, s');
      var r, r' := EvalE(c.p, h, n, init, s), EvalE(c.Q(), h, n, init, s');
      if r.v.Some? { PlainLoop(c, h, n, f, true, test, Some(step), body, block, open, r.s, r'.s); }
    case Switch(subject, body) => PlainSwitch(c, h, n, f, subject, body, cont, open, s, s');
    case Case(_, sub, block) => PlainBody(c, h, n, f, sub, block, brk, cont, open, s, s');
    case Default(sub, block) => PlainBody(c, h, n, f, sub, block, brk, cont, open, s, s');
    case Label(sub, block) => PlainBody(c, h, n, f, sub, block, brk, cont, open, s, s');
    case Break =>
    case Continue =>
    case Return(value) => if value.Some? { SimE(c, h, n, value.value, open, s, s'); }
  }

  /** The expressions of a loop keep to the rules. */
  ghost predicate Heads(c: Setup, f: FuncId, test: Expr, step: Option<Expr>)
    requires f in c.p
  {
    !Mentions(c.RulesOf(f).avoid, test) && (step.Some? ==> !Mentions(c.RulesOf(f).avoid, step.value))
  }

  lemma {:induction false} PlainLoop<U>(c: Setup, h: Host<U>, n: nat, f: FuncId, testFirst: bool, test: Expr,
                                        step: Option<Expr>, body: Stmt, block: BlockId,
                                        open: Trail<Frame>, s: State<U>, s': State<U>)
    requires Governed(c, f) && f !in c.chosen && WellFormed(c.RulesOf(f), body, true, true) && Tied(c, open, s, s')
    requires Heads(c, f, test, step)
    ensures SimPlain(c, f, open, s', Loop(c.p, h, n, f, testFirst, test, step, body, block, s),
                     Loop(c.Q(), h, n, f, testFirst, test, step, body, block, s'))
    decreases n, 1, body, 6
  {
    if n > 0 {
      if testFirst {
        PlainTested(c, h, n, f, test, step, body, block, open, s, s');
      } else {
        PlainRound(c, h, n, f, test, step, body, block, open, s, s');
      }
    }
  }

  lemma {:induction false} PlainTested<U>(c: Setup, h: Host<U>, n: nat, f: FuncId, test: Expr, step: Option<Expr>,
                                          body: Stmt, block: BlockId, open: Trail<Frame>, s: State<U>, s': State<U>)
    requires n > 0 && Governed(c, f) && f !in c.chosen && WellFormed(c.RulesOf(f), body, true, true) && Tied(c, open, s, s')
    requires Heads(c, f, test, step)
    ensures SimPlain(c, f, open, s', Loop(c.p, h, n, f, true, test, step, body, block, s),
                     Loop(c.Q(), h, n, f, true, test, step, body, block, s'))
    decreases n, 1, body, 5
  {
    LoopTests(c.p, h, n, f, test, step, body, block, s);
    LoopTests(c.Q(), h, n, f, test, step, body, block, s');
    SimE(c, h, n, test, open, s, s');
    var r, r' := EvalE(c.p, h, n, test, s), EvalE(c.Q(), h, n, test, s');
    if r.v.Some? { PlainRound(c, h, n, f, test, step, body, block, open, r.s, r'.s); }
  }

  lemma {:induction false} PlainRound<U>(c: Setup, h: Host<U>, n: nat, f: FuncId, test: Expr, step: Option<Expr>,
                                         body: Stmt, block: BlockId, open: Trail<Frame>, s: State<U>, s': State<U>)
    requires n > 0 && Governed(c, f) && f !in c.chosen && WellFormed(c.RulesOf(f), body, true, true) && Tied(c, open, s, s')
    requires Heads(c, f, test, step)
    ensures SimPlain(c, f, open, s', Round(c.p, h, n, f, test, step, body, block, s),
                     Round(c.Q(), h, n, f, test, step, body, block, s'))
    decreases n, 1, body, 4
  {
    RoundRuns(c.p, h, n, f, test, step, body, block, s);
    RoundRuns(c.Q(), h, n, f, test, step, body, block, s');
    PlainBody(c, h, n, f, body, block, true, true, open, s, s');
    var r := ExecS(c.p, h, n, f, body, s.Mark(BlockMark(f, block)));
    var r' := ExecS(c.Q(), h, n, f, body, s'.Mark(BlockMark(f, block)));
    if r.o.Normal? || r.o.Continued? { PlainOn(c, h, n, f, test, step, body, block, open, r.s, r'.s); }
  }

  lemma {:induction false} PlainOn<U>(c: Setup, h: Host<U>, n: nat, f: FuncId, test: Expr, step: Option<Expr>,
                                      body: Stmt, block: BlockId, open: Trail<Frame>, s: State<U>, s': State<U>)
    requires n > 0 && Governed(c, f) && f !in c.chosen && WellFormed(c.RulesOf(f), body, true, true) && Tied(c, open, s, s')
    requires Heads(c, f, test, step)
    ensures SimPlain(c, f, open, s', Onward(c.p, h, n, f, test, step, body, block, s),
                     Onward(c.Q(), h, n, f, test, step, body, block, s'))
    decreases n, 1, body, 3
  {
    if step.None? {
      PlainLoop(c, h, n - 1, f, true, test, step, body, block, open, s, s');
    } else {
      SimE(c, h, n, step.value, open, s, s');
      var r, r' := EvalE(c.p, h, n, step.value, s), EvalE(c.Q(), h, n, step.value, s');
      if r.v.Some? { PlainLoop(c, h, n - 1, f, true, test, step, body, block, open, r.s, r'.s); }
    }
  }

  lemma {:induction false} PlainSwitch<U>(c: Setup, h: Host<U>, n: nat, f: FuncId, subject: Expr, body: Stmt, cont: bool,
                                          open: Trail<Frame>, s: State<U>, s': State<U>)
    requires Governed(c, f) && f !in c.chosen && WellFormed(c.RulesOf(f), body, true, cont) && Tied(c, open, s, s')
    requires !Mentions(c.RulesOf(f).avoid, subject)
    ensures SimPlain(c, f, open, s', ExecS(c.p, h, n, f, Switch(subject, body), s),
                     ExecS(c.Q(), h, n, f, Switch(subject, body), s'))
    decreases n, 1, body, 5
  {
    SwitchRuns(c.p, h, n, f, subject, body, s);
    SwitchRuns(c.Q(), h, n, f, subject, body, s');
    SimE(c, h, n, subject, open, s, s');
    var r, r' := EvalE(c.p, h, n, subject, s), EvalE(c.Q(), h, n, subject, s');
    if r.v.Some? { PlainDispatch(c, h, n, f, body, r.v.value, cont, open, r.s, r'.s); }
  }

  lemma {:induction false} PlainDispatch<U>(c: Setup, h: Host<U>, n: nat, f: FuncId, body: Stmt, v: int, cont: bool,
                                            open: Trail<Frame>, s: State<U>, s': State<U>)
    requires Governed(c, f) && f !in c.chosen && WellFormed(c.RulesOf(f), body, true, cont) && Tied(c, open, s, s')
    ensures SimPlain(c, f, open, s', Dispatch(c.p, h, n, f, body, v, s), Dispatch(c.Q(), h, n, f, body, v, s'))
    decreases n, 1, body, 4
  {
    if body.Compound? {
      PlainFrom(c, h, n, f, body.items, Target(HitsL(body.items, Some(v)), v), true, cont, open, s, s');
    } else {
      var t := Target(Hits(body, Some(v)), v);
      if Hits(body, t) { PlainAt(c, h, n, f, body, t, true, cont, open, s, s'); }
    }
  }

  lemma {:induction false} PlainFrom<U>(c: Setup, h: Host<U>, n: nat, f: FuncId, l: List, t: Option<int>,
                                        brk: bool, cont: bool, open: Trail<Frame>, s: State<U>, s': State<U>)
    requires Governed(c, f) && f !in c.chosen && WellFormedL(c.RulesOf(f), l, brk, cont) && Tied(c, open, s, s')
    ensures SimPlain(c, f, open, s', ExecFrom(c.p, h, n, f, l, t, s), ExecFrom(c.Q(), h, n, f, l, t, s'))
    decreases n, 1, l, 1
  {
    if l.Nil? { return; }
    if Hits(l.head, t) {
      PlainAt(c, h, n, f, l.head, t, brk, cont, open, s, s');
      var r, r' := ExecAt(c.p, h, n, f, l.head, t, s), ExecAt(c.Q(), h, n, f, l.head, t, s');
      if r.o.Normal? { PlainL(c, h, n, f, l.tail, brk, cont, open, r.s, r'.s); }
    } else {
      PlainFrom(c, h, n, f, l.tail, t, brk, cont, open, s, s');
    }
  }

  lemma {:induction false} PlainAt<U>(c: Setup, h: Host<U>, n: nat, f: FuncId, x: Stmt, t: Option<int>,
                                      brk: bool, cont: bool, open: Trail<Frame>, s: State<U>, s': State<U>)
    requires Hits(x, t)
    requires Governed(c, f) && f !in c.chosen && WellFormed(c.RulesOf(f), x, brk, cont) && Tied(c, open, s, s')
    ensures SimPlain(c, f, open, s', ExecAt(c.p, h, n, f, x, t, s), ExecAt(c.Q(), h, n, f, x, t, s'))
    decreases n, 1, x, 2
  {
    if (x.Case? && t == Some(x.tag)) || (x.Default? && t.None?) {
      PlainS(c, h, n, f, x, brk, cont, open, s, s');
    } else {
      PlainAt(c, h, n, f, x.sub, t, brk, cont, open, s, s');
    }
  }

  // ---- functions that are instrumented

  /** The block directive turns "marked but not yet emitted" into "marked and emitted". */
  lemma DirectiveLinks<U>(c: Setup, h: Host<U>, n: nat, f: FuncId, b: BlockId, more: List, rest: Trail<Frame>,
                          s: State<U>, s': State<U>) returns (t': State<U>)
    requires f in c.p && f in c.chosen && Linked(c, f, rest, s, s')
    ensures t' == s'.Mark(BlockMark(f, b)).Emit(Reach(f, s'.pred, b)).(pred := b)
    ensures Linked(c, f, rest, s.Mark(BlockMark(f, b)), t')
    ensures ExecL(c.Q(), h, n, f, Directive(f, b, more), s'.Mark(BlockMark(f, b))) == ExecL(c.Q(), h, n, f, more, t')
  {
    t' := s'.Mark(BlockMark(f, b)).Emit(Reach(f, s'.pred, b)).(pred := b);
    var m := s'.Mark(BlockMark(f, b));
    assert ExecS(c.Q(), h, n, f, ReachBlock(f, b), m) == Done(Normal, m.Emit(Reach(f, s'.pred, b)));
    assert ExecS(c.Q(), h, n, f, SetPred(b), m.Emit(Reach(f, s'.pred, b))) == Done(Normal, t');
  }

  ghost predicate Chosen(c: Setup, f: FuncId) { Governed(c, f) && f in c.chosen }

  function InstrumentedS(c: Setup, f: FuncId, x: Stmt): List
    requires f in c.p
  {
    InstrS(f, c.p[f].hasRet, x)
  }

  function InstrumentedL(c: Setup, f: FuncId, l: List): List
    requires f in c.p
  {
    InstrL(f, c.p[f].hasRet, l)
  }

  lemma {:induction false} SimL<U>(c: Setup, h: Host<U>, n: nat, f: FuncId, brk: bool, cont: bool,
                                   l: List, rest: Trail<Frame>, s: State<U>, s': State<U>)
    requires Chosen(c, f) && WellFormedL(c.RulesOf(f), l, brk, cont) && Linked(c, f, rest, s, s')
    ensures Sim(c, f, rest, ExecL(c.p, h, n, f, l, s), ExecL(c.Q(), h, n, f, InstrumentedL(c, f, l), s'))
    ensures Contained(ExecL(c.p, h, n, f, l, s).o, brk, cont)
    decreases n, 1, l, 0
  {
    if l.Cons? {
      SimS(c, h, n, f, brk, cont, l.head, rest, s, s');
      ExecAppend(c.Q(), h, n, f, InstrumentedS(c, f, l.head), InstrumentedL(c, f, l.tail), s');
      var r, r' := ExecS(c.p, h, n, f, l.head, s), ExecL(c.Q(), h, n, f, InstrumentedS(c, f, l.head), s');
      if r.o.Normal? { SimL(c, h, n, f, brk, cont, l.tail, rest, r.s, r'.s); }
    }
  }

  lemma Next<U>(p: Program, h: Host<U>, n: nat, f: FuncId, x: Stmt, l: List, s: State<U>)
    ensures ExecL(p, h, n, f, Cons(x, l), s) ==
            var Done(o, s1) := ExecS(p, h, n, f, x, s);
            if o.Normal? then ExecL(p, h, n, f, l, s1) else Done(o, s1)
  {
  }

  lemma Single<U>(p: Program, h: Host<U>, n: nat, f: FuncId, x: Stmt, s: State<U>)
    ensures ExecL(p, h, n, f, Cons(x, Nil), s) == ExecS(p, h, n, f, x, s)
  {
  }

  /** A body behind its braces and directive. */
  lemma {:induction false} SimBody<U>(c: Setup, h: Host<U>, n: nat, f: FuncId, brk: bool, cont: bool,
                                      x: Stmt, b: BlockId, rest: Trail<Frame>, s: State<U>, s': State<U>)
    requires Chosen(c, f) && WellFormed(c.RulesOf(f), x, brk, cont) && Linked(c, f, rest, s, s')
    ensures Sim(c, f, rest, ExecS(c.p, h, n, f, x, s.Mark(BlockMark(f, b))),
                ExecS(c.Q(), h, n, f, Braced(f, c.p[f].hasRet, x, b), s'.Mark(BlockMark(f, b))))
    ensures Contained(ExecS(c.p, h, n, f, x, s.Mark(BlockMark(f, b))).o, brk, cont)
    decreases n, 1, x, 3
  {
    var t' := DirectiveLinks(c, h, n, f, b, Inside(f, c.p[f].hasRet, x), rest, s, s');
    SimInside(c, h, n, f, brk, cont, x, rest, s.Mark(BlockMark(f, b)), t');
  }

  lemma {:induction false} SimInside<U>(c: Setup, h: Host<U>, n: nat, f: FuncId, brk: bool, cont: bool,
                                        x: Stmt, rest: Trail<Frame>, s: State<U>, s': State<U>)
    requires Chosen(c, f) && WellFormed(c.RulesOf(f), x, brk, cont) && Linked(c, f, rest, s, s')
    ensures Sim(c, f, rest, ExecS(c.p, h, n, f, x, s), ExecL(c.Q(), h, n, f, Inside(f, c.p[f].hasRet, x), s'))
    ensures Contained(ExecS(c.p, h, n, f, x, s).o, brk, cont)
    decreases n, 1, x, 2
  {
    if x.Compound? {
      SimL(c, h, n, f, brk, cont, x.items, rest, s, s');
    } else {
      SimS(c, h, n, f, brk, cont, x, rest, s, s');
    }
  }

  /** A labelled statement whose label is reached: case, default and plain labels alike. */
  lemma {:induction false} SimLabelled<U>(c: Setup, h: Host<U>, n: nat, f: FuncId, brk: bool, cont: bool,
                                          x: Stmt, rest: Trail<Frame>, s: State<U>, s': State<U>)
    requires x.Case? || x.Default? || x.Label?
    requires Chosen(c, f) && WellFormed(c.RulesOf(f), x, brk, cont) && Linked(c, f, rest, s, s')
    ensures Sim(c, f, rest, ExecS(c.p, h, n, f, x, s), ExecL(c.Q(), h, n, f, InstrumentedS(c, f, x), s'))
    ensures Contained(ExecS(c.p, h, n, f, x, s).o, brk, cont)
    decreases n, 1, x, 0
  {
    var q := c.Q();
    var b := x.block;
    var l := InstrumentedS(c, f, x);
    assert ExecS(c.p, h, n, f, x, s) == ExecS(c.p, h, n, f, x.sub, s.Mark(BlockMark(f, b)));
    if x.sub.Compound? {
      SimBody(c, h, n, f, brk, cont, x.sub, b, rest, s, s');
      Single(q, h, n, f, l.head, s');
    } else {
      var t' := DirectiveLinks(c, h, n, f, b, InstrumentedS(c, f, x.sub), rest, s, s');
      var m := s'.Mark(BlockMark(f, b));
      assert ExecS(q, h, n, f, l.head, s') == ExecS(q, h, n, f, ReachBlock(f, b), m);
      Next(q, h, n, f, l.head, l.tail, s');
      Next(q, h, n, f, ReachBlock(f, b), l.tail, m);
      SimS(c, h, n, f, brk, cont, x.sub, rest, s.Mark(BlockMark(f, b)), t');
    }
  }

  /** The exit event and the return behind it. */
  lemma ExitAndReturn<U>(c: Setup, h: Host<U>, n: nat, f: FuncId, back: Stmt, rest: Trail<Frame>, s: State<U>, t: State<U>)
    requires f in c.chosen && Linked(c, f, rest, s, t)
    requires back == ReturnRet || back == Return(None)
    ensures var o := Returned(if back.ReturnRet? then Some(t.ret) else None);
            Sim(c, f, rest, Done(o, s), ExecL(c.Q(), h, n, f, Cons(ExitFunc(f), Cons(back, Nil)), t))
  {
    Next(c.Q(), h, n, f, ExitFunc(f), Cons(back, Nil), t);
    Single(c.Q(), h, n, f, back, t.Emit(Exit(f)));
  }

  /** A void return of an expression: the exit is emitted first, and the expression evaluated behind it does what it
      would have done in front of it. */
  lemma ExitBeforeValue<U>(q: Program, h: Host<U>, n: nat, f: FuncId, e: Expr, t: State<U>)
    ensures var r := ExecL(q, h, n, f, InstrS(f, false, Return(Some(e))), t); var w := EvalE(q, h, n, e, t);
            && r.o == (if w.v.None? then Stuck else Returned(w.v)) && Alike(w.s, r.s)
            && Grown(t.log, w.s.log, Then(t.log, Exit(f)), r.s.log)
            && r.s == EvalE(q, h, n, e, t.Emit(Exit(f))).s
  {
    var back := Return(Some(e));
    Next(q, h, n, f, ExitFunc(f), Cons(back, Nil), t);
    Single(q, h, n, f, back, t.Emit(Exit(f)));
    BlindE(q, h, n, e, t, t.Emit(Exit(f)));
  }

  lemma {:induction false} MentionsMore(a: set<FuncId>, b: set<FuncId>, e: Expr)
    requires a <= b && Mentions(a, e)
    ensures Mentions(b, e)
  {
    match e
    case Op(_) =>
    case Bin(_, left, right) => if Mentions(a, left) { MentionsMore(a, b, left); } else { MentionsMore(a, b, right); }
    case Cond(test, thn, els) =>
      if Mentions(a, test) { MentionsMore(a, b, test); }
      else if Mentions(a, thn) { MentionsMore(a, b, thn); } else { MentionsMore(a, b, els); }
    case Call(callee, arg) => if callee !in a { MentionsMore(a, b, arg); }
  }

  /** An exact trace: e emits nothing, so it does not matter that the exit comes first. */
  lemma {:induction false} SimSilentReturn<U>(c: Setup, h: Host<U>, n: nat, f: FuncId, e: Expr,
                                              rest: Trail<Frame>, s: State<U>, s': State<U>)
    requires Fits(c) && f in c.chosen && Linked(c, f, rest, s, s') && c.claim.Exact? && !Mentions(c.loud, e)
    ensures Sim(c, f, rest, ExecS(c.p, h, n, f, Return(Some(e)), s),
                ExecL(c.Q(), h, n, f, InstrS(f, false, Return(Some(e))), s'))
    decreases n, 1, e
  {
    SimE(c, h, n, e, Then(rest, Frame(f, s'.pred)), s, s');
    ExitBeforeValue(c.Q(), h, n, f, e, s');
    var w, r := EvalE(c.Q(), h, n, e, s'), ExecL(c.Q(), h, n, f, InstrS(f, false, Return(Some(e))), s');
    GrownSize(s'.log, w.s.log, Then(s'.log, Exit(f)), r.s.log);
    if w.v.None? && c.p.Keys <= c.loud { MentionsMore(c.p.Keys, c.loud, e); }
  }

  lemma FitsLess(c: Setup)
    requires Fits(c) && !c.claim.Exact?
    ensures Fits(c.(claim := Nests))
  {
    forall f | f in c.p ensures c.(claim := Nests).RulesOf(f) == c.RulesOf(f) {}
  }

  lemma NestsUnder<U>(c: Setup, open: Trail<Frame>, s: State<U>, s': State<U>)
    requires s.user == s'.user && s.seen == s'.seen && Known(c, s.seen) && Scan(s'.log) == Some(open)
    ensures Tied(c.(claim := Nests), open, s, s')
  {
  }

  /** A trace that only nests and tallies: what e emits behind the exit nests above the caller. */
  lemma {:induction false} SimLoudReturn<U>(c: Setup, h: Host<U>, n: nat, f: FuncId, e: Expr,
                                            rest: Trail<Frame>, s: State<U>, s': State<U>)
    requires Fits(c) && f in c.chosen && Linked(c, f, rest, s, s') && !c.claim.Exact?
    ensures Sim(c, f, rest, ExecS(c.p, h, n, f, Return(Some(e)), s),
                ExecL(c.Q(), h, n, f, InstrS(f, false, Return(Some(e))), s'))
    decreases n, 1, e
  {
    var t := s'.Emit(Exit(f));
    FitsLess(c);
    NestsUnder(c, rest, s, t);
    SimE(c.(claim := Nests), h, n, e, rest, s, t);
    assert c.(claim := Nests).Q() == c.Q();
    ExitBeforeValue(c.Q(), h, n, f, e, s');
    SimE(c, h, n, e, Then(rest, Frame(f, s'.pred)), s, s');
    var w, r := EvalE(c.Q(), h, n, e, s'), ExecL(c.Q(), h, n, f, InstrS(f, false, Return(Some(e))), s');
    TellsReturn(c, f, s'.log, w.s.log, r.s.log, s'.seen, w.s.seen, w.v.Some?);
  }

  lemma TellsReturn(c: Setup, f: FuncId, a: Trail<Event>, b: Trail<Event>, b2: Trail<Event>,
                    seen: Trail<Mark>, seen': Trail<Mark>, ended: bool)
    requires f in c.chosen && !c.claim.Exact? && Tells(c, a, seen) && (ended ==> Tells(c, b, seen'))
    requires Grown(a, b, Then(a, Exit(f)), b2)
    ensures ended ==> Tells(c, b2, Then(seen', ReturnMark(f)))
  {
    if ended && c.claim.Tallies? {
      GrownMarks(a, b, Then(a, Exit(f)), b2);
      var x := multiset{ReturnMark(f)};
      assert Marks(Erase(Then(a, Exit(f)))) == Marks(Erase(a)) + x;
      assert Marks(Restrict(c.chosen, Then(seen', ReturnMark(f)))) == Marks(Restrict(c.chosen, seen')) + x;
      hide Marks, Erase, Restrict;
      Cancel(Marks(Erase(b2)), Marks(Erase(a)), Marks(Erase(b)), x);
    }
  }

  lemma Cancel<T>(b2: multiset<T>, a: multiset<T>, b: multiset<T>, x: multiset<T>)
    requires b2 + a == b + (a + x)
    ensures b2 == b + x
  {
    assert b2 == (b2 + a) - a;
    assert b + x == (b + (a + x)) - a;
  }

  lemma {:induction false} SimReturn<U>(c: Setup, h: Host<U>, n: nat, f: FuncId, value: Option<Expr>,
                                        rest: Trail<Frame>, s: State<U>, s': State<U>)
    requires Chosen(c, f) && WellFormed(c.RulesOf(f), Return(value), false, false) && Linked(c, f, rest, s, s')
    ensures Sim(c, f, rest, ExecS(c.p, h, n, f, Return(value), s),
                ExecL(c.Q(), h, n, f, InstrumentedS(c, f, Return(value)), s'))
    decreases n, 1, Return(value), 0
  {
    if value.None? {
      ExitAndReturn(c, h, n, f, Return(None), rest, s, s');
    } else if c.p[f].hasRet {
      SimE(c, h, n, value.value, Then(rest, Frame(f, s'.pred)), s, s');
      var r, r' := EvalE(c.p, h, n, value.value, s), EvalE(c.Q(), h, n, value.value, s');
      Next(c.Q(), h, n, f, SetRet(value.value), Cons(ExitFunc(f), Cons(ReturnRet, Nil)), s');
      if r.v.Some? { ExitAndReturn(c, h, n, f, ReturnRet, rest, r.s, r'.s.(ret := r.v.value)); }
    } else {
      if c.claim.Exact? {
        SimSilentReturn(c, h, n, f, value.value, rest, s, s');
      } else {
        SimLoudReturn(c, h, n, f, value.value, rest, s, s');
      }
    }
  }

  lemma {:induction false} SimS<U>(c: Setup, h: Host<U>, n: nat, f: FuncId, brk: bool, cont: bool,
                                   x: Stmt, rest: Trail<Frame>, s: State<U>, s': State<U>)
    requires Chosen(c, f) && WellFormed(c.RulesOf(f), x, brk, cont) && Linked(c, f, rest, s, s')
    ensures Sim(c, f, rest, ExecS(c.p, h, n, f, x, s), ExecL(c.Q(), h, n, f, InstrumentedS(c, f, x), s'))
    ensures Contained(ExecS(c.p, h, n, f, x, s).o, brk, cont)
    decreases n, 1, x, 1
  {
    var open := Then(rest, Frame(f, s'.pred));
    if !x.Case? && !x.Default? && !x.Label? && !x.Return? { Single(c.Q(), h, n, f, InstrumentedS(c, f, x).head, s'); }
    match x
    case Eval(e) => SimE(c, h, n, e, open, s, s');
    case Compound(items) => SimL(c, h, n, f, brk, cont, items, rest, s, s');
    case If(_, _, _, _, _) => SimIf(c, h, n, f, brk, cont, x, rest, s, s');
    case While(test, body, block) => SimLoop(c, h, n, f, true, test, None, body, block, rest, s, s');
    case DoWhile(body, block, test) => SimLoop(c, h, n, f, false, test, None, body, block, rest, s, s');
    case For(_, _, _, _, _) => SimFor(c, h, n, f, brk, cont, x, rest, s, s');
    case Switch(subject, body) => SimSwitch(c, h, n, f, cont, subject, body, rest, s, s');
    case Case(_, _, _) => SimLabelled(c, h, n, f, brk, cont, x, rest, s, s');
    case Default(_, _) => SimLabelled(c, h, n, f, brk, cont, x, rest, s, s');
    case Label(_, _) => SimLabelled(c, h, n, f, brk, cont, x, rest, s, s');
    case Break =>
    case Continue =>
    case Return(value) => SimReturn(c, h, n, f, value, rest, s, s');
  }

  lemma {:induction false} SimIf<U>(c: Setup, h: Host<U>, n: nat, f: FuncId, brk: bool, cont: bool,
                                    x: Stmt, rest: Trail<Frame>, s: State<U>, s': State<U>)
    requires x.If? && Chosen(c, f) && WellFormed(c.RulesOf(f), x, brk, cont) && Linked(c, f, rest, s, s')
    ensures Sim(c, f, rest, ExecS(c.p, h, n, f, x, s), ExecS(c.Q(), h, n, f, InstrumentedS(c, f, x).head, s'))
    ensures Contained(ExecS(c.p, h, n, f, x, s).o, brk, cont)
    decreases n, 1, x, 0
  {
    SimE(c, h, n, x.test, Then(rest, Frame(f, s'.pred)), s, s');
    var r, r' := EvalE(c.p, h, n, x.test, s), EvalE(c.Q(), h, n, x.test, s');
    if r.v.Some? {
      if r.v.value != 0 {
        SimBody(c, h, n, f, brk, cont, x.thn, x.thnBlock, rest, r.s, r'.s);
      } else if x.els.Some? {
        SimBody(c, h, n, f, brk, cont, x.els.value, x.elsBlock, rest, r.s, r'.s);
      }
    }
  }

  lemma {:induction false} SimFor<U>(c: Setup, h: Host<U>, n: nat, f: FuncId, brk: bool, cont: bool,
                                     x: Stmt, rest: Trail<Frame>, s: State<U>, s': State<U>)
    requires x.For? && Chosen(c, f) && WellFormed(c.RulesOf(f), x, brk, cont) && Linked(c, f, rest, s, s')
    ensures Sim(c, f, rest, ExecS(c.p, h, n, f, x, s), ExecS(c.Q(), h, n, f, InstrumentedS(c, f, x).head, s'))
    ensures Contained(ExecS(c.p, h, n, f, x, s).o, brk, cont)
    decreases n, 1, x, 0
  {
    SimE(c, h, n, x.init, Then(rest, Frame(f, s'.pred)), s, s');
    var r, r' := EvalE(c.p, h, n, x.init, s), EvalE(c.Q(), h, n, x.init, s');
    if r.v.Some? { SimLoop(c, h, n, f, true, x.test, Some(x.step), x.body, x.block, rest, r.s, r'.s); }
  }

  lemma {:induction false} SimLoop<U>(c: Setup, h: Host<U>, n: nat, f: FuncId, testFirst: bool,
                                      test: Expr, step: Option<Expr>, body: Stmt, block: BlockId,
                                      rest: Trail<Frame>, s: State<U>, s': State<U>)
    requires Chosen(c, f) && WellFormed(c.RulesOf(f), body, true, true) && Linked(c, f, rest, s, s')
    ensures Sim(c, f, rest, Loop(c.p, h, n, f, testFirst, test, step, body, block, s),
                Loop(c.Q(), h, n, f, testFirst, test, step, Braced(f, c.p[f].hasRet, body, block), block, s'))
    ensures Contained(Loop(c.p, h, n, f, testFirst, test, step, body, block, s).o, false, false)
    decreases n, 1, body, 7
  {
    if n > 0 {
      if testFirst {
        SimTested(c, h, n, f, test, step, body, block, rest, s, s');
      } else {
        SimRound(c, h, n, f, test, step, body, block, rest, s, s');
      }
    }
  }

  lemma {:induction false} SimTested<U>(c: Setup, h: Host<U>, n: nat, f: FuncId, test: Expr, step: Option<Expr>,
                                        body: Stmt, block: BlockId, rest: Trail<Frame>, s: State<U>, s': State<U>)
    requires n > 0 && Chosen(c, f) && WellFormed(c.RulesOf(f), body, true, true) && Linked(c, f, rest, s, s')
    ensures Sim(c, f, rest, Loop(c.p, h, n, f, true, test, step, body, block, s),
                Loop(c.Q(), h, n, f, true, test, step, Braced(f, c.p[f].hasRet, body, block), block, s'))
    ensures Contained(Loop(c.p, h, n, f, true, test, step, body, block, s).o, false, false)
    decreases n, 1, body, 6
  {
    LoopTests(c.p, h, n, f, test, step, body, block, s);
    LoopTests(c.Q(), h, n, f, test, step, Braced(f, c.p[f].hasRet, body, block), block, s');
    SimE(c, h, n, test, Then(rest, Frame(f, s'.pred)), s, s');
    var r, r' := EvalE(c.p, h, n, test, s), EvalE(c.Q(), h, n, test, s');
    if r.v.Some? { SimRound(c, h, n, f, test, step, body, block, rest, r.s, r'.s); }
  }

  lemma {:induction false} SimRound<U>(c: Setup, h: Host<U>, n: nat, f: FuncId, test: Expr, step: Option<Expr>,
                                       body: Stmt, block: BlockId, rest: Trail<Frame>, s: State<U>, s': State<U>)
    requires n > 0 && Chosen(c, f) && WellFormed(c.RulesOf(f), body, true, true) && Linked(c, f, rest, s, s')
    ensures Sim(c, f, rest, Round(c.p, h, n, f, test, step, body, block, s),
                Round(c.Q(), h, n, f, test, step, Braced(f, c.p[f].hasRet, body, block), block, s'))
    ensures Contained(Round(c.p, h, n, f, test, step, body, block, s).o, false, false)
    decreases n, 1, body, 5
  {
    RoundRuns(c.p, h, n, f, test, step, body, block, s);
    RoundRuns(c.Q(), h, n, f, test, step, Braced(f, c.p[f].hasRet, body, block), block, s');
    SimBody(c, h, n, f, true, true, body, block, rest, s, s');
    var r := ExecS(c.p, h, n, f, body, s.Mark(BlockMark(f, block)));
    var r' := ExecS(c.Q(), h, n, f, Braced(f, c.p[f].hasRet, body, block), s'.Mark(BlockMark(f, block)));
    if r.o.Normal? || r.o.Continued? { SimOn(c, h, n, f, test, step, body, block, rest, r.s, r'.s); }
  }

  lemma {:induction false} SimOn<U>(c: Setup, h: Host<U>, n: nat, f: FuncId, test: Expr, step: Option<Expr>,
                                    body: Stmt, block: BlockId, rest: Trail<Frame>, s: State<U>, s': State<U>)
    requires n > 0 && Chosen(c, f) && WellFormed(c.RulesOf(f), body, true, true) && Linked(c, f, rest, s, s')
    ensures Sim(c, f, rest, Onward(c.p, h, n, f, test, step, body, block, s),
                Onward(c.Q(), h, n, f, test, step, Braced(f, c.p[f].hasRet, body, block), block, s'))
    ensures Contained(Onward(c.p, h, n, f, test, step, body, block, s).o, false, false)
    decreases n, 1, body, 4
  {
    if step.None? {
      SimLoop(c, h, n - 1, f, true, test, step, body, block, rest, s, s');
    } else {
      SimE(c, h, n, step.value, Then(rest, Frame(f, s'.pred)), s, s');
      var r, r' := EvalE(c.p, h, n, step.value, s), EvalE(c.Q(), h, n, step.value, s');
      if r.v.Some? { SimLoop(c, h, n - 1, f, true, test, step, body, block, rest, r.s, r'.s); }
    }
  }

  // ---- switch: the pass keeps the labels, in order

  lemma {:induction false} HitsAppend(a: List, b: List, t: Option<int>)
    ensures HitsL(Append(a, b), t) == (HitsL(a, t) || HitsL(b, t))
  {
    if a.Cons? { HitsAppend(a.tail, b, t); }
  }

  lemma HitsOne(x: Stmt, l: List, t: Option<int>)
    ensures HitsL(Cons(x, l), t) == (Hits(x, t) || HitsL(l, t))
    ensures !HitsL(Nil, t)
  {
  }

  lemma {:induction false} HitsKept(f: FuncId, hasRet: bool, x: Stmt, t: Option<int>)
    ensures HitsL(InstrS(f, hasRet, x), t) == Hits(x, t)
    decreases x
  {
    var l := InstrS(f, hasRet, x);
    HitsOne(l.head, l.tail, t);
    if x.Case? || x.Default? || x.Label? {
      HitsKept(f, hasRet, x.sub, t);
      assert !Hits(l.head.sub, t);
    }
    if l.tail.Cons? {
      HitsOne(l.tail.head, l.tail.tail, t);
      if l.tail.tail.Cons? { HitsOne(l.tail.tail.head, l.tail.tail.tail, t); }
    }
  }

  lemma {:induction false} HitsKeptL(f: FuncId, hasRet: bool, l: List, t: Option<int>)
    ensures HitsL(InstrL(f, hasRet, l), t) == HitsL(l, t)
    decreases l
  {
    if l.Cons? {
      HitsKept(f, hasRet, l.head, t);
      HitsKeptL(f, hasRet, l.tail, t);
      HitsAppend(InstrS(f, hasRet, l.head), InstrL(f, hasRet, l.tail), t);
    }
  }

  lemma {:induction false} ExecFromAppend<U>(p: Program, h: Host<U>, n: nat, f: FuncId, a: List, b: List,
                                             t: Option<int>, s: State<U>)
    ensures ExecFrom(p, h, n, f, Append(a, b), t, s) ==
            if !HitsL(a, t) then ExecFrom(p, h, n, f, b, t, s) else
            var Done(o, s1) := ExecFrom(p, h, n, f, a, t, s);
            if o.Normal? then ExecL(p, h, n, f, b, s1) else Done(o, s1)
    decreases a
  {
    if a.Cons? {
      if Hits(a.head, t) {
        var Done(o, s1) := ExecAt(p, h, n, f, a.head, t, s);
        ExecAppend(p, h, n, f, a.tail, b, s1);
      } else {
        ExecFromAppend(p, h, n, f, a.tail, b, t, s);
      }
    }
  }

  lemma Skip<U>(p: Program, h: Host<U>, n: nat, f: FuncId, l: List, t: Option<int>, s: State<U>)
    requires l.Cons? && !Hits(l.head, t)
    ensures ExecFrom(p, h, n, f, l, t, s) == ExecFrom(p, h, n, f, l.tail, t, s)
  {
  }

  lemma {:induction false} SimAt<U>(c: Setup, h: Host<U>, n: nat, f: FuncId, brk: bool, cont: bool,
                                    x: Stmt, t: Option<int>, rest: Trail<Frame>, s: State<U>, s': State<U>)
    requires Hits(x, t)
    requires Chosen(c, f) && WellFormed(c.RulesOf(f), x, brk, cont) && Linked(c, f, rest, s, s')
    ensures Sim(c, f, rest, ExecAt(c.p, h, n, f, x, t, s), ExecFrom(c.Q(), h, n, f, InstrumentedS(c, f, x), t, s'))
    ensures Contained(ExecAt(c.p, h, n, f, x, t, s).o, brk, cont)
    decreases n, 1, x, 2
  {
    var q := c.Q();
    var l := InstrumentedS(c, f, x);
    if (x.Case? && t == Some(x.tag)) || (x.Default? && t.None?) {
      SimS(c, h, n, f, brk, cont, x, rest, s, s');
      assert ExecAt(q, h, n, f, l.head, t, s') == ExecS(q, h, n, f, l.head, s');
      assert ExecFrom(q, h, n, f, l, t, s') == ExecL(q, h, n, f, l, s');
    } else {
      SimAt(c, h, n, f, brk, cont, x.sub, t, rest, s, s');
      Skip(q, h, n, f, l, t, s');
      Skip(q, h, n, f, l.tail, t, s');
    }
  }

  lemma {:induction false} SimFrom<U>(c: Setup, h: Host<U>, n: nat, f: FuncId, brk: bool, cont: bool,
                                      l: List, t: Option<int>, rest: Trail<Frame>, s: State<U>, s': State<U>)
    requires Chosen(c, f) && WellFormedL(c.RulesOf(f), l, brk, cont) && Linked(c, f, rest, s, s')
    ensures Sim(c, f, rest, ExecFrom(c.p, h, n, f, l, t, s), ExecFrom(c.Q(), h, n, f, InstrumentedL(c, f, l), t, s'))
    ensures Contained(ExecFrom(c.p, h, n, f, l, t, s).o, brk, cont)
    decreases n, 1, l, 1
  {
    if l.Nil? { return; }
    var x := InstrumentedS(c, f, l.head);
    HitsKept(f, c.p[f].hasRet, l.head, t);
    ExecFromAppend(c.Q(), h, n, f, x, InstrumentedL(c, f, l.tail), t, s');
    if Hits(l.head, t) {
      SimAt(c, h, n, f, brk, cont, l.head, t, rest, s, s');
      var r, r' := ExecAt(c.p, h, n, f, l.head, t, s), ExecFrom(c.Q(), h, n, f, x, t, s');
      if r.o.Normal? { SimL(c, h, n, f, brk, cont, l.tail, rest, r.s, r'.s); }
    } else {
      SimFrom(c, h, n, f, brk, cont, l.tail, t, rest, s, s');
    }
  }

  lemma {:induction false} NoTarget<U>(p: Program, h: Host<U>, n: nat, f: FuncId, l: List, t: Option<int>, s: State<U>)
    requires !HitsL(l, t)
    ensures ExecFrom(p, h, n, f, l, t, s) == Done(Normal, s)
    decreases l
  {
    if l.Cons? { NoTarget(p, h, n, f, l.tail, t, s); }
  }

  lemma {:induction false} SimSwitch<U>(c: Setup, h: Host<U>, n: nat, f: FuncId, cont: bool,
                                        subject: Expr, body: Stmt, rest: Trail<Frame>, s: State<U>, s': State<U>)
    requires Chosen(c, f) && WellFormed(c.RulesOf(f), body, true, cont) && Linked(c, f, rest, s, s')
    ensures Sim(c, f, rest, ExecS(c.p, h, n, f, Switch(subject, body), s),
                ExecS(c.Q(), h, n, f, Switch(subject, Compound(Inside(f, c.p[f].hasRet, body))), s'))
    ensures Contained(ExecS(c.p, h, n, f, Switch(subject, body), s).o, false, cont)
    decreases n, 1, body, 5
  {
    SwitchRuns(c.p, h, n, f, subject, body, s);
    SwitchRuns(c.Q(), h, n, f, subject, Compound(Inside(f, c.p[f].hasRet, body)), s');
    SimE(c, h, n, subject, Then(rest, Frame(f, s'.pred)), s, s');
    var r, r' := EvalE(c.p, h, n, subject, s), EvalE(c.Q(), h, n, subject, s');
    if r.v.Some? { SimDispatch(c, h, n, f, cont, body, r.v.value, rest, r.s, r'.s); }
  }

  lemma {:induction false} SimDispatch<U>(c: Setup, h: Host<U>, n: nat, f: FuncId, cont: bool, body: Stmt, v: int,
                                          rest: Trail<Frame>, s: State<U>, s': State<U>)
    requires Chosen(c, f) && WellFormed(c.RulesOf(f), body, true, cont) && Linked(c, f, rest, s, s')
    ensures Sim(c, f, rest, Dispatch(c.p, h, n, f, body, v, s),
                Dispatch(c.Q(), h, n, f, Compound(Inside(f, c.p[f].hasRet, body)), v, s'))
    ensures Contained(Dispatch(c.p, h, n, f, body, v, s).o, true, cont)
    decreases n, 1, body, 4
  {
    var hasRet := c.p[f].hasRet;
    if body.Compound? {
      HitsKeptL(f, hasRet, body.items, Some(v));
      SimFrom(c, h, n, f, true, cont, body.items, Target(HitsL(body.items, Some(v)), v), rest, s, s');
    } else {
      HitsKept(f, hasRet, body, Some(v));
      var t := Target(Hits(body, Some(v)), v);
      HitsKept(f, hasRet, body, t);
      if Hits(body, t) {
        SimAt(c, h, n, f, true, cont, body, t, rest, s, s');
      } else {
        NoTarget(c.Q(), h, n, f, InstrS(f, hasRet, body), t, s');
      }
    }
  }
}
