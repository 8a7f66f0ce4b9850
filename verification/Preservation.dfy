/** What the instrumentation (clang-instrument/instrument.cpp) preserves: the meaning of every program; and its trace,
    whose brackets always close, whose events are always the right ones, and whose order is right exactly as long
    as void returns evaluate nothing that emits. */
module Preservation {
  import opened Instrument
  import opened Prelude
  import opened Simulation
  import opened WriteOnlyLog

  // ---------------------------------------------------------------- void returns of expressions

  /** If the erased log with an exit put in front of its last part equals the erased log with that exit behind it, the
      last part consists of exits of f: it closes activations and opens none. */
  lemma {:induction false} RotatedExits(a: Trail<Event>, b: Trail<Event>, f: FuncId, b2: Trail<Event>)
    requires Grown(a, b, Then(a, Exit(f)), b2) && Erase(b2) == Then(Erase(b), ReturnMark(f)) && Scan(b).Some?
    ensures b == a || (Scan(a).Some? && Size(Scan(b).value) < Size(Scan(a).value))
    decreases b
  {
    if b != a || b2 != Then(a, Exit(f)) { RotatedExits(a, b.before, f, b2.before); }
  }

  /** The statement-level condition, exact. A void function's `return e;` keeps the trace in order if and only if
      evaluating e emits nothing: with an event, the exit comes before what e does. */
  lemma VoidReturnInOrderExactly<U>(c: Setup, h: Host<U>, n: nat, f: FuncId, e: Expr,
                                  rest: Trail<Frame>, s: State<U>, s': State<U>)
    requires Fits(c) && c.claim.Exact? && f in c.chosen && Linked(c, f, rest, s, s')
    requires EvalE(c.p, h, n, e, s).v.Some?
    ensures Sim(c, f, rest, ExecS(c.p, h, n, f, Return(Some(e)), s),
                ExecL(c.Q(), h, n, f, InstrS(f, false, Return(Some(e))), s'))
            <==> EvalE(c.Q(), h, n, e, s').s.log == s'.log
  {
    var open := Then(rest, Frame(f, s'.pred));
    SimE(c, h, n, e, open, s, s');
    ExitBeforeValue(c.Q(), h, n, f, e, s');
    var w, r := EvalE(c.Q(), h, n, e, s'), ExecL(c.Q(), h, n, f, InstrS(f, false, Return(Some(e))), s');
    GrownSize(s'.log, w.s.log, Then(s'.log, Exit(f)), r.s.log);
    if Sim(c, f, rest, ExecS(c.p, h, n, f, Return(Some(e)), s), r) {
      RotatedExits(s'.log, w.s.log, f, r.s.log);
    }
  }

  // ---------------------------------------------------------------- main results

  /** A run of the program: call `main` on an empty trace. */
  function Run<U>(p: Program, h: Host<U>, fuel: nat, main: FuncId, arg: int, user: U): Value<U>
    requires main in p
  {
    Activate(p, h, fuel, main, arg, State(user, 0, 0, Start, Start))
  }

  /** The pass preserves meaning, whatever it instruments: with the same fuel the instrumented program ends exactly
      when the source program does, in the same user state, with the same value and the same history. */
  lemma MeaningPreserved<U>(p: Program, chosen: set<FuncId>, h: Host<U>, fuel: nat, main: FuncId, arg: int, user: U)
    requires Accepted(p) && main in p
    ensures var r, r' := Run(p, h, fuel, main, arg, user), Run(InstrumentProgram(p, chosen), h, fuel, main, arg, user);
            r.v == r'.v && r.s.user == r'.s.user && r.s.seen == r'.s.seen
  {
    var c := Setup(p, chosen, p.Keys + chosen, Nests);
    var s := State(user, 0, 0, Start, Start);
    SimActivate(c, h, fuel, main, arg, Start, s, s);
  }

  /** For every program and every choice of functions, finished or not: the trace nests and each predecessor is the
      previous current block of its activation, from 0 on. A finished run leaves every bracket closed, and its events
      are those of the history of the instrumented functions, each as often: one enter and one exit per activation,
      one event per entered body. */
  lemma TraceBrackets<U>(p: Program, chosen: set<FuncId>, h: Host<U>, fuel: nat, main: FuncId, arg: int, user: U)
    requires Accepted(p) && main in p
    ensures var r, r' := Run(p, h, fuel, main, arg, user), Run(InstrumentProgram(p, chosen), h, fuel, main, arg, user);
            && Scan(r'.s.log).Some?
            && (r.v.Some? ==> Scan(r'.s.log) == Some(Start) && Marks(Erase(r'.s.log)) == Marks(Restrict(chosen, r.s.seen)))
  {
    var c := Setup(p, chosen, p.Keys + chosen, Tallies);
    var s := State(user, 0, 0, Start, Start);
    SimActivate(c, h, fuel, main, arg, Start, s, s);
  }

  /** The emitted trace is exact: without predecessor blocks it is the source program's own history of calls, returns
      and entered bodies, in its order, restricted to the instrumented functions. That of a cut-off run is such a
      prefix as well unless the cut lies behind the exit of a void return that calls a function of the program. */
  lemma TraceExact<U>(c: Setup, h: Host<U>, fuel: nat, main: FuncId, arg: int, user: U)
    requires Fits(c) && c.claim.Exact? && main in c.p
    ensures var r, r' := Run(c.p, h, fuel, main, arg, user), Run(c.Q(), h, fuel, main, arg, user);
            && UpTo(c, r'.s.log, r.s.seen)
            && (r.v.Some? ==> Erase(r'.s.log) == Restrict(c.chosen, r.s.seen))
  {
    var s := State(user, 0, 0, Start, Start);
    SimActivate(c, h, fuel, main, arg, Start, s, s);
  }

  /** With every function instrumented and no void return of a call, the trace is the whole history, finished or not. */
  lemma TraceOfEverything<U>(p: Program, h: Host<U>, fuel: nat, main: FuncId, arg: int, user: U)
    requires Fits(Setup(p, p.Keys, p.Keys, Exact)) && main in p
    ensures var r, r' := Run(p, h, fuel, main, arg, user), Run(InstrumentProgram(p, p.Keys), h, fuel, main, arg, user);
            Erase(r'.s.log) == r.s.seen
  {
    var s := State(user, 0, 0, Start, Start);
    SimActivate(Setup(p, p.Keys, p.Keys, Exact), h, fuel, main, arg, Start, s, s);
  }

  /** The program `void f() { return g(op); }  void g() { }`. */
  function VoidReturnOfCall(f: FuncId, g: FuncId, op: nat): Program {
    map[f := Fn(false, Cons(Return(Some(Call(g, Op(op)))), Nil)), g := Fn(false, Nil)]
  }

  lemma EmptyActivation<U>(q: Program, h: Host<U>, n: nat, g: FuncId, arg: int, s: State<U>)
    requires g in q && q[g] == InstrFn(g, Fn(false, Nil))
    ensures var r := Activate(q, h, n, g, arg, s);
            && r.v.Some?
            && r.s.log == Then(Then(s.log, Enter(g)), Exit(g))
            && r.s.seen == Then(Then(s.seen, CallMark(g)), ReturnMark(g))
  {
    assert q[g].body == Cons(SetPred(0), Cons(EnterFunc(g), Cons(ExitFunc(g), Nil)));
    var t0 := State(h.bind(g, arg, s.user), 0, 0, s.log, Then(s.seen, CallMark(g)));
    Next(q, h, n, g, SetPred(0), q[g].body.tail, t0);
    Next(q, h, n, g, EnterFunc(g), q[g].body.tail.tail, t0);
    Single(q, h, n, g, ExitFunc(g), t0.Emit(Enter(g)));
  }

  lemma InstrumentedVoidBody(f: FuncId, g: FuncId, op: nat)
    requires f != g
    ensures var q := InstrumentProgram(VoidReturnOfCall(f, g, op), {f, g}); var call := Return(Some(Call(g, Op(op))));
            && q.Keys == {f, g} && q[g] == InstrFn(g, Fn(false, Nil))
            && q[f].body == Cons(SetPred(0), Cons(EnterFunc(f), Cons(ExitFunc(f), Cons(call, Nil))))
  {
    var call := Return(Some(Call(g, Op(op))));
    assert InstrL(f, false, Cons(call, Nil)) == Append(InstrS(f, false, call), Nil);
    assert InstrS(f, false, call) == Cons(ExitFunc(f), Cons(call, Nil));
    assert Append(Cons(call, Nil), Nil) == Cons(call, Nil);
  }

  /** The body of that function: both events of the caller come before those of the callee. */
  lemma VoidBodyRuns<U>(q: Program, h: Host<U>, n: nat, f: FuncId, g: FuncId, op: nat, s: State<U>)
    requires n > 0 && g in q && q[g] == InstrFn(g, Fn(false, Nil)) && s.pred == 0
    ensures var call := Return(Some(Call(g, Op(op))));
            var r := ExecL(q, h, n, f, Cons(SetPred(0), Cons(EnterFunc(f), Cons(ExitFunc(f), Cons(call, Nil)))), s);
            && r.o.Returned? && r.o.value.Some?
            && r.s.log == Then(Then(Then(Then(s.log, Enter(f)), Exit(f)), Enter(g)), Exit(g))
            && r.s.seen == Then(Then(s.seen, CallMark(g)), ReturnMark(g))
  {
    var call := Return(Some(Call(g, Op(op))));
    var s2 := s.Emit(Enter(f)).Emit(Exit(f));
    Next(q, h, n, f, SetPred(0), Cons(EnterFunc(f), Cons(ExitFunc(f), Cons(call, Nil))), s);
    Next(q, h, n, f, EnterFunc(f), Cons(ExitFunc(f), Cons(call, Nil)), s);
    Next(q, h, n, f, ExitFunc(f), Cons(call, Nil), s.Emit(Enter(f)));
    Single(q, h, n, f, call, s2);
    var s3 := s2.(user := h.act(op, s2.user));
    assert EvalE(q, h, n, Op(op), s2) == Value(Some(h.val(op, s2.user)), s3);
    assert EvalE(q, h, n, call.value.value, s2) == Activate(q, h, n - 1, g, h.val(op, s2.user), s3);
    EmptyActivation(q, h, n - 1, g, h.val(op, s2.user), s3);
  }

  /** The smallest failure of that order: the exit event is put in front of the whole return statement, so the trace
      closes the caller before the callee opens. It still brackets. */
  lemma VoidReturnOfCallLosesOrder<U>(h: Host<U>, fuel: nat, f: FuncId, g: FuncId, op: nat, arg: int, user: U)
    requires fuel > 0 && f != g
    ensures var r := Run(InstrumentProgram(VoidReturnOfCall(f, g, op), {f, g}), h, fuel, f, arg, user);
            && r.v.Some? && Scan(r.s.log) == Some(Start)
            && r.s.log == Then(Then(Then(Then(Start, Enter(f)), Exit(f)), Enter(g)), Exit(g))
            && r.s.seen == Then(Then(Then(Then(Start, CallMark(f)), CallMark(g)), ReturnMark(g)), ReturnMark(f))
  {
    InstrumentedVoidBody(f, g, op);
    var q := InstrumentProgram(VoidReturnOfCall(f, g, op), {f, g});
    VoidBodyRuns(q, h, fuel, f, g, op, State(h.bind(f, arg, user), 0, 0, Start, Then(Start, CallMark(f))));
    Brackets(Start, Start, f);
    Brackets(Then(Then(Start, Enter(f)), Exit(f)), Start, g);
  }

  lemma Brackets(log: Trail<Event>, open: Trail<Frame>, f: FuncId)
    requires Scan(log) == Some(open)
    ensures Scan(Then(Then(log, Enter(f)), Exit(f))) == Some(open)
  {
    assert Scan(Then(log, Enter(f))) == Some(Then(open, Frame(f, 0)));
  }
}
