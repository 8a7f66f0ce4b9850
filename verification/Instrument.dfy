/** Source-to-source instrumentation (clang-instrument/instrument.cpp), at the level of the syntax tree.

    A small C-like statement language, its semantics, the pass that inserts coverage directives, and
    what a reader of the emitted trace can tell.

    The semantics keeps two logs. `seen` is the truth: the semantics itself records every call, every
    return and every control body that is entered. `log` is what the inserted directives emit. The
    pass keeps the meaning of everything C accepts, and its trace always nests and its predecessor blocks
    chain; the trace is exact when, with the predecessor blocks erased, it is the truth about the
    instrumented functions, in its order. */
module Instrument {
  import opened Prelude

  type FuncId = nat
  type BlockId = nat

  // ---------------------------------------------------------------- syntax

  datatype Expr =
    | Op(op: nat)
    | Bin(op: nat, left: Expr, right: Expr)
    | Cond(test: Expr, thn: Expr, els: Expr)
    | Call(callee: FuncId, arg: Expr)

  /** Every control body carries the block id that the control-flow graph maps it to. */
  datatype Stmt =
    | Eval(e: Expr)
    | Compound(items: List)
    | If(test: Expr, thn: Stmt, thnBlock: BlockId, els: Option<Stmt>, elsBlock: BlockId)
    | While(test: Expr, body: Stmt, block: BlockId)
    | DoWhile(body: Stmt, block: BlockId, test: Expr)
    | For(init: Expr, test: Expr, step: Expr, body: Stmt, block: BlockId)
    | Switch(subject: Expr, body: Stmt)
    | Case(tag: int, sub: Stmt, block: BlockId)
    | Default(sub: Stmt, block: BlockId)
    | Label(sub: Stmt, block: BlockId)
    | Break
    | Continue
    | Return(value: Option<Expr>)
    // what the pass inserts
    | ReachBlock(func: FuncId, block: BlockId)
    | SetPred(block: BlockId)
    | EnterFunc(func: FuncId)
    | ExitFunc(func: FuncId)
    | SetRet(e: Expr)
    | ReturnRet

  datatype List = Nil | Cons(head: Stmt, tail: List)

  datatype Fn = Fn(hasRet: bool, body: List)

  type Program = map<FuncId, Fn>

  function Append(a: List, b: List): List {
    match a
    case Nil => b
    case Cons(x, rest) => Cons(x, Append(rest, b))
  }

  // ---------------------------------------------------------------- semantics

  /** The meaning of the user's own operations, left open: any state, any effects. */
  datatype Host<!U> = Host(
    act: (nat, U) -> U,
    val: (nat, U) -> int,
    combine: (nat, int, int) -> int,
    bind: (FuncId, int, U) -> U,
    unbind: (FuncId, U) -> U,
    external: (FuncId, int, U) -> U,
    externalValue: (FuncId, int, U) -> int)

  datatype Mark = CallMark(func: FuncId) | BlockMark(func: FuncId, block: BlockId) | ReturnMark(func: FuncId)

  datatype Event = Enter(func: FuncId) | Reach(func: FuncId, pred: BlockId, cur: BlockId) | Exit(func: FuncId)

  /** A history: the newest entry is `last`. Also used as a stack, whose top is `last`. */
  datatype Trail<T> = Start | Then(before: Trail<T>, last: T)

  /** `pred` and `ret` are the inserted locals __coverage_pred_block and __coverage_ret_value. */
  datatype State<U> = State(user: U, pred: BlockId, ret: int, log: Trail<Event>, seen: Trail<Mark>) {
    function Mark(m: Mark): State<U> { this.(seen := Then(seen, m)) }
    function Emit(e: Event): State<U> { this.(log := Then(log, e)) }
  }

  datatype Outcome = Normal | Broke | Continued | Returned(value: Option<int>) | Stuck

  datatype Value<U> = Value(v: Option<int>, s: State<U>)

  datatype Done<U> = Done(o: Outcome, s: State<U>)

  /** Fuel is spent on loop iterations and calls only; `None` and `Stuck` mean it ran out. */
  function EvalE<U>(p: Program, h: Host<U>, fuel: nat, e: Expr, s: State<U>): Value<U>
    decreases fuel, 0, e
  {
    match e
    case Op(op) => Value(Some(h.val(op, s.user)), s.(user := h.act(op, s.user)))
    case Bin(op, left, right) =>
      var Value(v, s1) := EvalE(p, h, fuel, left, s);
      if v.None? then Value(None, s1) else
      var Value(w, s2) := EvalE(p, h, fuel, right, s1);
      if w.None? then Value(None, s2) else Value(Some(h.combine(op, v.value, w.value)), s2)
    case Cond(test, thn, els) =>
      var Value(v, s1) := EvalE(p, h, fuel, test, s);
      if v.None? then Value(None, s1) else EvalE(p, h, fuel, if v.value != 0 then thn else els, s1)
    case Call(callee, arg) =>
      var Value(v, s1) := EvalE(p, h, fuel, arg, s);
      if v.None? then Value(None, s1) else
      if callee !in p then
        Value(Some(h.externalValue(callee, v.value, s1.user)), s1.(user := h.external(callee, v.value, s1.user)))
      else if fuel == 0 then Value(None, s1) else Activate(p, h, fuel - 1, callee, v.value, s1)
  }

  /** One activation: fresh inserted locals, the body, and back to the caller's locals. */
  function Activate<U>(p: Program, h: Host<U>, fuel: nat, f: FuncId, arg: int, s: State<U>)
    : Value<U>
    requires f in p
    decreases fuel, 2
  {
    var s0 := State(h.bind(f, arg, s.user), 0, 0, s.log, Then(s.seen, CallMark(f)));
    var Done(o, t) := ExecL(p, h, fuel, f, p[f].body, s0);
    if o.Stuck? then Value(None, t) else
    var v := if o.Returned? && o.value.Some? then o.value.value else 0;
    Value(Some(v), State(h.unbind(f, t.user), s.pred, s.ret, t.log, Then(t.seen, ReturnMark(f))))
  }

  function ExecL<U>(p: Program, h: Host<U>, fuel: nat, f: FuncId, l: List, s: State<U>): Done<U>
    decreases fuel, 1, l, 0
  {
    match l
    case Nil => Done(Normal, s)
    case Cons(x, rest) =>
      var Done(o, s1) := ExecS(p, h, fuel, f, x, s);
      if o.Normal? then ExecL(p, h, fuel, f, rest, s1) else Done(o, s1)
  }

  function ExecS<U>(p: Program, h: Host<U>, fuel: nat, f: FuncId, x: Stmt, s: State<U>): Done<U>
    decreases fuel, 1, x, 0
  {
    match x
    case Eval(e) => var Value(v, s1) := EvalE(p, h, fuel, e, s); Done(if v.None? then Stuck else Normal, s1)
    case Compound(items) => ExecL(p, h, fuel, f, items, s)
    case If(test, thn, thnBlock, els, elsBlock) =>
      var Value(v, s1) := EvalE(p, h, fuel, test, s);
      if v.None? then Done(Stuck, s1)
      else if v.value != 0 then ExecS(p, h, fuel, f, thn, s1.Mark(BlockMark(f, thnBlock)))
      else if els.Some? then ExecS(p, h, fuel, f, els.value, s1.Mark(BlockMark(f, elsBlock)))
      else Done(Normal, s1)
    case While(test, body, block) => Loop(p, h, fuel, f, true, test, None, body, block, s)
    case DoWhile(body, block, test) => Loop(p, h, fuel, f, false, test, None, body, block, s)
    case For(init, test, step, body, block) =>
      var Value(v, s1) := EvalE(p, h, fuel, init, s);
      if v.None? then Done(Stuck, s1) else Loop(p, h, fuel, f, true, test, Some(step), body, block, s1)
    case Switch(subject, body) =>
      var Value(v, s1) := EvalE(p, h, fuel, subject, s);
      if v.None? then Done(Stuck, s1) else
      var Done(o, s2) := Dispatch(p, h, fuel, f, body, v.value, s1);
      Done(if o.Broke? then Normal else o, s2)
    case Case(_, sub, block) => ExecS(p, h, fuel, f, sub, s.Mark(BlockMark(f, block)))
    case Default(sub, block) => ExecS(p, h, fuel, f, sub, s.Mark(BlockMark(f, block)))
    case Label(sub, block) => ExecS(p, h, fuel, f, sub, s.Mark(BlockMark(f, block)))
    case Break => Done(Broke, s)
    case Continue => Done(Continued, s)
    case Return(value) =>
      if value.None? then Done(Returned(None), s) else
      var Value(v, s1) := EvalE(p, h, fuel, value.value, s);
      Done(if v.None? then Stuck else Returned(v), s1)
    case ReachBlock(func, block) => Done(Normal, s.Emit(Reach(func, s.pred, block)))
    case SetPred(block) => Done(Normal, s.(pred := block))
    case EnterFunc(func) => Done(Normal, s.Emit(Enter(func)))
    case ExitFunc(func) => Done(Normal, s.Emit(Exit(func)))
    case SetRet(e) =>
      var Value(v, s1) := EvalE(p, h, fuel, e, s);
      if v.None? then Done(Stuck, s1) else Done(Normal, s1.(ret := v.value))
    case ReturnRet => Done(Returned(Some(s.ret)), s)
  }

  /** All loops: `testFirst` is false for the first round of do-while; `step` runs after each round. */
  function Loop<U>(p: Program, h: Host<U>, fuel: nat, f: FuncId, testFirst: bool, test: Expr,
                   step: Option<Expr>, body: Stmt, block: BlockId, s: State<U>): Done<U>
    decreases fuel, 1, body, 2
  {
    if fuel == 0 then Done(Stuck, s) else
    if !testFirst then Round(p, h, fuel, f, test, step, body, block, s) else
    var Value(v, s1) := EvalE(p, h, fuel, test, s);
    if v.None? then Done(Stuck, s1) else
    if v.value == 0 then Done(Normal, s1) else Round(p, h, fuel, f, test, step, body, block, s1)
  }

  /** One round, and then the rest of the loop. */
  function Round<U>(p: Program, h: Host<U>, fuel: nat, f: FuncId, test: Expr, step: Option<Expr>,
                    body: Stmt, block: BlockId, s: State<U>): Done<U>
    requires fuel > 0
    decreases fuel, 1, body, 1
  {
    var Done(o, s1) := ExecS(p, h, fuel, f, body, s.Mark(BlockMark(f, block)));
    if o.Broke? then Done(Normal, s1) else
    if o.Returned? || o.Stuck? then Done(o, s1) else Onward(p, h, fuel, f, test, step, body, block, s1)
  }

  /** What follows a round: the step, and the loop again. */
  function Onward<U>(p: Program, h: Host<U>, fuel: nat, f: FuncId, test: Expr, step: Option<Expr>,
                     body: Stmt, block: BlockId, s: State<U>): Done<U>
    requires fuel > 0
    decreases fuel, 1, body, 0
  {
    if step.None? then Loop(p, h, fuel - 1, f, true, test, step, body, block, s) else
    var Value(w, s1) := EvalE(p, h, fuel, step.value, s);
    if w.None? then Done(Stuck, s1) else Loop(p, h, fuel - 1, f, true, test, step, body, block, s1)
  }

  /** One unfolding of a switch ... */
  lemma SwitchRuns<U>(p: Program, h: Host<U>, n: nat, f: FuncId, subject: Expr, body: Stmt, s: State<U>)
    ensures ExecS(p, h, n, f, Switch(subject, body), s) ==
            var r := EvalE(p, h, n, subject, s);
            if r.v.None? then Done(Stuck, r.s) else
            var w := Dispatch(p, h, n, f, body, r.v.value, r.s);
            Done(if w.o.Broke? then Normal else w.o, w.s)
  {
    hide Dispatch, EvalE;
  }

  /** ... of a loop that tests first ... */
  lemma LoopTests<U>(p: Program, h: Host<U>, n: nat, f: FuncId, test: Expr, step: Option<Expr>,
                     body: Stmt, block: BlockId, s: State<U>)
    requires n > 0
    ensures Loop(p, h, n, f, true, test, step, body, block, s) ==
            var r := EvalE(p, h, n, test, s);
            if r.v.None? then Done(Stuck, r.s)
            else if r.v.value == 0 then Done(Normal, r.s) else Round(p, h, n, f, test, step, body, block, r.s)
  {
    hide Round, EvalE;
  }

  /** ... and of a round. */
  lemma RoundRuns<U>(p: Program, h: Host<U>, n: nat, f: FuncId, test: Expr, step: Option<Expr>,
                     body: Stmt, block: BlockId, s: State<U>)
    requires n > 0
    ensures Round(p, h, n, f, test, step, body, block, s) ==
            var r := ExecS(p, h, n, f, body, s.Mark(BlockMark(f, block)));
            if r.o.Broke? then Done(Normal, r.s)
            else if r.o.Returned? || r.o.Stuck? then r else Onward(p, h, n, f, test, step, body, block, r.s)
  {
    hide Onward, ExecS;
  }

  function Target(found: bool, v: int): Option<int> { if found then Some(v) else None }

  /** A switch jumps to the first item labelled with the value, else to the default label. */
  function Dispatch<U>(p: Program, h: Host<U>, fuel: nat, f: FuncId, body: Stmt, v: int, s: State<U>): Done<U>
    decreases fuel, 1, body, 3
  {
    if body.Compound? then
      ExecFrom(p, h, fuel, f, body.items, Target(HitsL(body.items, Some(v)), v), s)
    else
      var t := Target(Hits(body, Some(v)), v);
      if Hits(body, t) then ExecAt(p, h, fuel, f, body, t, s) else Done(Normal, s)
  }

  predicate Hits(x: Stmt, t: Option<int>) {
    match x
    case Case(tag, sub, _) => t == Some(tag) || Hits(sub, t)
    case Default(sub, _) => t.None? || Hits(sub, t)
    case Label(sub, _) => Hits(sub, t)
    case _ => false
  }

  predicate HitsL(l: List, t: Option<int>) {
    l.Cons? && (Hits(l.head, t) || HitsL(l.tail, t))
  }

  function ExecFrom<U>(p: Program, h: Host<U>, fuel: nat, f: FuncId, l: List, t: Option<int>, s: State<U>)
    : Done<U>
    decreases fuel, 1, l, 1
  {
    match l
    case Nil => Done(Normal, s)
    case Cons(x, rest) =>
      if !Hits(x, t) then ExecFrom(p, h, fuel, f, rest, t, s) else
      var Done(o, s1) := ExecAt(p, h, fuel, f, x, t, s);
      if o.Normal? then ExecL(p, h, fuel, f, rest, s1) else Done(o, s1)
  }

  /** Enter a labelled statement at the label t, skipping the labels in front of it. */
  function ExecAt<U>(p: Program, h: Host<U>, fuel: nat, f: FuncId, x: Stmt, t: Option<int>, s: State<U>)
    : Done<U>
    requires Hits(x, t)
    decreases fuel, 1, x, 1
  {
    match x
    case Case(tag, sub, _) =>
      if t == Some(tag) then ExecS(p, h, fuel, f, x, s) else ExecAt(p, h, fuel, f, sub, t, s)
    case Default(sub, _) =>
      if t.None? then ExecS(p, h, fuel, f, x, s) else ExecAt(p, h, fuel, f, sub, t, s)
    case Label(sub, _) => ExecAt(p, h, fuel, f, sub, t, s)
  }

  // ---------------------------------------------------------------- the pass

  function Directive(f: FuncId, block: BlockId, rest: List): List {
    Cons(ReachBlock(f, block), Cons(SetPred(block), rest))
  }

  /** The text that replaces one statement; return and labelled statements become several. */
  function InstrS(f: FuncId, hasRet: bool, x: Stmt): List
    decreases x, 0
  {
    match x
    case Compound(items) => Cons(Compound(InstrL(f, hasRet, items)), Nil)
    case If(test, thn, thnBlock, els, elsBlock) =>
      var els' := if els.Some? then Some(Braced(f, hasRet, els.value, elsBlock)) else None;
      Cons(If(test, Braced(f, hasRet, thn, thnBlock), thnBlock, els', elsBlock), Nil)
    case While(test, body, block) => Cons(While(test, Braced(f, hasRet, body, block), block), Nil)
    case DoWhile(body, block, test) => Cons(DoWhile(Braced(f, hasRet, body, block), block, test), Nil)
    case For(init, test, step, body, block) =>
      Cons(For(init, test, step, Braced(f, hasRet, body, block), block), Nil)
    case Switch(subject, body) => Cons(Switch(subject, Compound(Inside(f, hasRet, body))), Nil)
    case Case(tag, sub, block) =>
      if sub.Compound? then Cons(Case(tag, Braced(f, hasRet, sub, block), block), Nil)
      else Cons(Case(tag, ReachBlock(f, block), block), Cons(SetPred(block), InstrS(f, hasRet, sub)))
    case Default(sub, block) =>
      if sub.Compound? then Cons(Default(Braced(f, hasRet, sub, block), block), Nil)
      else Cons(Default(ReachBlock(f, block), block), Cons(SetPred(block), InstrS(f, hasRet, sub)))
    case Label(sub, block) =>
      if sub.Compound? then Cons(Label(Braced(f, hasRet, sub, block), block), Nil)
      else Cons(Label(ReachBlock(f, block), block), Cons(SetPred(block), InstrS(f, hasRet, sub)))
    case Return(value) =>
      if hasRet && value.Some? then Cons(SetRet(value.value), Cons(ExitFunc(f), Cons(ReturnRet, Nil)))
      else Cons(ExitFunc(f), Cons(x, Nil))
    case _ => Cons(x, Nil)
  }

  /** The statements between the braces of a body: its own items, or the single statement. */
  function Inside(f: FuncId, hasRet: bool, x: Stmt): List
    decreases x, 1
  {
    if x.Compound? then InstrL(f, hasRet, x.items) else InstrS(f, hasRet, x)
  }

  /** Braces around a control body, and the block directive right behind the opening brace. */
  function Braced(f: FuncId, hasRet: bool, x: Stmt, block: BlockId): (r: Stmt)
    ensures r.Compound?
    decreases x, 2
  {
    Compound(Directive(f, block, Inside(f, hasRet, x)))
  }

  function InstrL(f: FuncId, hasRet: bool, l: List): List
    decreases l, 0
  {
    match l
    case Nil => Nil
    case Cons(x, rest) => Append(InstrS(f, hasRet, x), InstrL(f, hasRet, rest))
  }

  predicate EndsInReturn(l: List) {
    l.Cons? && (if l.tail.Nil? then l.head.Return? else EndsInReturn(l.tail))
  }

  function InstrFn(f: FuncId, fn: Fn): Fn {
    var epilogue := if EndsInReturn(fn.body) then Nil else Cons(ExitFunc(f), Nil);
    Fn(fn.hasRet, Cons(SetPred(0), Cons(EnterFunc(f), Append(InstrL(f, fn.hasRet, fn.body), epilogue))))
  }

  /** The pass leaves some functions alone: those of other files, and all but the first of functions that share a
      qualified name. */
  function InstrumentProgram(p: Program, chosen: set<FuncId>): Program {
    map f | f in p :: if f in chosen then InstrFn(f, p[f]) else p[f]
  }

  // ---------------------------------------------------------------- what the compiler accepts

  predicate Mentions(fs: set<FuncId>, e: Expr) {
    match e
    case Op(_) => false
    case Bin(_, left, right) => Mentions(fs, left) || Mentions(fs, right)
    case Cond(test, thn, els) => Mentions(fs, test) || Mentions(fs, thn) || Mentions(fs, els)
    case Call(callee, arg) => callee in fs || Mentions(fs, arg)
  }

  /** What the code of one function keeps to: no expression calls `avoid`, and no expression behind a return without
      a return type calls `avoidBack`. C itself asks for neither. */
  datatype Rules = Rules(hasRet: bool, avoid: set<FuncId>, avoidBack: set<FuncId>)

  /** User code has no directives, returns a value in functions that have one, and breaks and continues only where
      there is something to break out of or to continue. A void function may return a (void) expression. */
  predicate WellFormed(k: Rules, x: Stmt, brk: bool, cont: bool) {
    match x
    case Eval(e) => !Mentions(k.avoid, e)
    case Compound(items) => WellFormedL(k, items, brk, cont)
    case If(test, thn, _, els, _) =>
      !Mentions(k.avoid, test) && WellFormed(k, thn, brk, cont) && (els.Some? ==> WellFormed(k, els.value, brk, cont))
    case While(test, body, _) => !Mentions(k.avoid, test) && WellFormed(k, body, true, true)
    case DoWhile(body, _, test) => !Mentions(k.avoid, test) && WellFormed(k, body, true, true)
    case For(init, test, step, body, _) =>
      && !Mentions(k.avoid, init) && !Mentions(k.avoid, test) && !Mentions(k.avoid, step)
      && WellFormed(k, body, true, true)
    case Switch(subject, body) => !Mentions(k.avoid, subject) && WellFormed(k, body, true, cont)
    case Case(_, sub, _) => WellFormed(k, sub, brk, cont)
    case Default(sub, _) => WellFormed(k, sub, brk, cont)
    case Label(sub, _) => WellFormed(k, sub, brk, cont)
    case Break => brk
    case Continue => cont
    case Return(value) =>
      if value.None? then !k.hasRet
      else !Mentions(k.avoid, value.value) && (k.hasRet || !Mentions(k.avoidBack, value.value))
    case _ => false
  }

  predicate WellFormedL(k: Rules, l: List, brk: bool, cont: bool) {
    l.Cons? ==> WellFormed(k, l.head, brk, cont) && WellFormedL(k, l.tail, brk, cont)
  }

  /** Everything that C accepts. */
  ghost predicate Accepted(p: Program) {
    forall f :: f in p ==> WellFormedL(Rules(p[f].hasRet, {}, {}), p[f].body, false, false)
  }

  /** What is claimed of the trace: that it nests and chains; also that its events are those of the history, each as
      often; also that they come in the order of the history. */
  datatype Claim = Nests | Tallies | Exact

  /** A program, the functions the pass instruments, and a set that contains every function whose calls can reach
      an instrumented one. */
  datatype Setup = Setup(p: Program, chosen: set<FuncId>, loud: set<FuncId>, claim: Claim) {
    function Q(): Program { InstrumentProgram(p, chosen) }

    function RulesOf(f: FuncId): Rules
      requires f in p
    {
      Rules(p[f].hasRet, if f in loud then {} else loud, if claim.Exact? && f in chosen then loud else {})
    }
  }

  /** Functions outside `loud` call none in it; and for an exact trace, no instrumented void function returns an
      expression that calls one. */
  ghost predicate Fits(c: Setup) {
    c.chosen <= c.loud && forall f :: f in c.p ==> WellFormedL(c.RulesOf(f), c.p[f].body, false, false)
  }

  // ---------------------------------------------------------------- reading a trace

  /** What a reader keeps per open activation: the function and the block it was last in. */
  datatype Frame = Frame(func: FuncId, last: BlockId)

  function Advance(open: Trail<Frame>, e: Event): Option<Trail<Frame>> {
    match e
    case Enter(f) => Some(Then(open, Frame(f, 0)))
    case Reach(f, pred, cur) =>
      if open.Then? && open.last == Frame(f, pred) then Some(Then(open.before, Frame(f, cur))) else None
    case Exit(f) => if open.Then? && open.last.func == f then Some(open.before) else None
  }

  /** Reads a trace from the start; None as soon as an event does not nest or an edge does not chain. */
  function Scan(log: Trail<Event>): Option<Trail<Frame>> {
    match log
    case Start => Some(Start)
    case Then(before, e) => var open := Scan(before); if open.None? then None else Advance(open.value, e)
  }

  /** The trace without its predecessor blocks. */
  function Erase(log: Trail<Event>): Trail<Mark> {
    match log
    case Start => Start
    case Then(before, e) => Then(Erase(before), EraseEvent(e))
  }

  function EraseEvent(e: Event): Mark {
    match e
    case Enter(f) => CallMark(f)
    case Reach(f, _, cur) => BlockMark(f, cur)
    case Exit(f) => ReturnMark(f)
  }

  /** The history of the chosen functions only. */
  function Restrict(chosen: set<FuncId>, seen: Trail<Mark>): Trail<Mark> {
    match seen
    case Start => Start
    case Then(before, m) => if m.func in chosen then Then(Restrict(chosen, before), m) else Restrict(chosen, before)
  }

  function Marks(t: Trail<Mark>): multiset<Mark> {
    match t
    case Start => multiset{}
    case Then(before, m) => Marks(before) + multiset{m}
  }
}
