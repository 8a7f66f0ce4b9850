/** Laws of the statement language of Instrument that C promises of its own (section 6.8 of ISO/IEC 9899:2011): the two
    sides of the simulation are not only equal to each other. */
module Semantics {
  import opened Instrument
  import opened Prelude

  /** `do b while (t);` is one round of b and then `while (t) b`. */
  lemma DoWhileIsRoundThenWhile<U>(p: Program, h: Host<U>, n: nat, f: FuncId, body: Stmt, block: BlockId, test: Expr, s: State<U>)
    requires n > 0
    ensures ExecS(p, h, n, f, DoWhile(body, block, test), s) ==
            var r := ExecS(p, h, n, f, body, s.Mark(BlockMark(f, block)));
            if r.o.Broke? then Done(Normal, r.s)
            else if r.o.Returned? || r.o.Stuck? then r
            else ExecS(p, h, n - 1, f, While(test, body, block), r.s)
  {
    RoundRuns(p, h, n, f, test, None, body, block, s);
  }

  ghost predicate NeverContinues<U(!new)>(p: Program, h: Host<U>, f: FuncId, x: Stmt) {
    forall n: nat, s: State<U> :: !ExecS(p, h, n, f, x, s).o.Continued?
  }

  function Pair(x: Stmt, y: Stmt): Stmt { Compound(Cons(x, Cons(y, Nil))) }

  lemma PairRuns<U>(p: Program, h: Host<U>, n: nat, f: FuncId, x: Stmt, y: Stmt, s: State<U>)
    ensures ExecS(p, h, n, f, Pair(x, y), s) ==
            var r := ExecS(p, h, n, f, x, s);
            if r.o.Normal? then ExecS(p, h, n, f, y, r.s) else r
  {
    var l := Cons(y, Nil);
    var r := ExecS(p, h, n, f, x, s);
    assert ExecL(p, h, n, f, Cons(x, l), s) == if r.o.Normal? then ExecL(p, h, n, f, l, r.s) else r;
    if r.o.Normal? {
      var w := ExecS(p, h, n, f, y, r.s);
      assert ExecL(p, h, n, f, l, r.s) == if w.o.Normal? then ExecL(p, h, n, f, Nil, w.s) else w;
    }
  }

  lemma {:induction false} LoopStepInBody<U(!new)>(p: Program, h: Host<U>, n: nat, f: FuncId, test: Expr, step: Expr,
                                             body: Stmt, block: BlockId, s: State<U>)
    requires NeverContinues(p, h, f, body)
    ensures Loop(p, h, n, f, true, test, Some(step), body, block, s) ==
            Loop(p, h, n, f, true, test, None, Pair(body, Eval(step)), block, s)
    decreases n
  {
    if n > 0 {
      var both := Pair(body, Eval(step));
      LoopTests(p, h, n, f, test, Some(step), body, block, s);
      LoopTests(p, h, n, f, test, None, both, block, s);
      var r := EvalE(p, h, n, test, s);
      if r.v.Some? && r.v.value != 0 {
        RoundRuns(p, h, n, f, test, Some(step), body, block, r.s);
        RoundRuns(p, h, n, f, test, None, both, block, r.s);
        var t := r.s.Mark(BlockMark(f, block));
        PairRuns(p, h, n, f, body, Eval(step), t);
        var w := ExecS(p, h, n, f, body, t);
        if w.o.Normal? {
          var v := EvalE(p, h, n, step, w.s);
          if v.v.Some? { LoopStepInBody(p, h, n - 1, f, test, step, body, block, v.s); }
        }
      }
    }
  }

  /** `for (i; t; e) b` is `{ i; while (t) { b e; } }`, unless b continues. */
  lemma ForIsWhile<U(!new)>(p: Program, h: Host<U>, n: nat, f: FuncId, init: Expr, test: Expr, step: Expr,
                      body: Stmt, block: BlockId, s: State<U>)
    requires NeverContinues(p, h, f, body)
    ensures ExecS(p, h, n, f, For(init, test, step, body, block), s) ==
            ExecS(p, h, n, f, Pair(Eval(init), While(test, Pair(body, Eval(step)), block)), s)
  {
    var loop := While(test, Pair(body, Eval(step)), block);
    PairRuns(p, h, n, f, Eval(init), loop, s);
    var r := EvalE(p, h, n, init, s);
    if r.v.Some? { LoopStepInBody(p, h, n, f, test, step, body, block, r.s); }
  }

  /** `switch (e) { case k: a b default: c }` by the value of e. */
  function TwoWay(subject: Expr, tag: int, a: Stmt, mark: BlockId, b: Stmt, c: Stmt, mark': BlockId): Stmt {
    Switch(subject, Compound(Cons(Case(tag, a, mark), Cons(b, Cons(Default(c, mark'), Nil)))))
  }

  /** What a switch makes of the outcome of its body. */
  function Caught<U>(r: Done<U>): Done<U> { Done(if r.o.Broke? then Normal else r.o, r.s) }

  lemma SwitchChooses<U>(p: Program, h: Host<U>, n: nat, f: FuncId, subject: Expr, tag: int, a: Stmt, mark: BlockId,
                         b: Stmt, c: Stmt, mark': BlockId, s: State<U>)
    requires EvalE(p, h, n, subject, s).v.Some?
    requires !a.Case? && !a.Default? && !a.Label? && !b.Case? && !b.Default? && !b.Label? && !c.Case? && !c.Default? && !c.Label?
    ensures var v := EvalE(p, h, n, subject, s);
            ExecS(p, h, n, f, TwoWay(subject, tag, a, mark, b, c, mark'), s) ==
            if v.v.value != tag then Caught(ExecS(p, h, n, f, c, v.s.Mark(BlockMark(f, mark')))) else
            var r := ExecS(p, h, n, f, a, v.s.Mark(BlockMark(f, mark)));
            if !r.o.Normal? then Caught(r) else
            var w := ExecS(p, h, n, f, b, r.s);
            if !w.o.Normal? then Caught(w) else Caught(ExecS(p, h, n, f, c, w.s.Mark(BlockMark(f, mark'))))
  {
    var last := Cons(Default(c, mark'), Nil);
    var rest := Cons(b, last);
    var items := Cons(Case(tag, a, mark), rest);
    var v := EvalE(p, h, n, subject, s);
    SwitchRuns(p, h, n, f, subject, Compound(items), s);
    Unlabelled(a, Some(v.v.value));
    Unlabelled(b, Some(v.v.value));
    Unlabelled(c, Some(v.v.value));
    assert !Hits(Default(c, mark'), Some(v.v.value)) && !HitsL(Nil, Some(v.v.value));
    assert !HitsL(last, Some(v.v.value));
    assert !HitsL(rest, Some(v.v.value));
    assert Hits(Case(tag, a, mark), Some(v.v.value)) == HitsL(items, Some(v.v.value)) == (v.v.value == tag);
    if v.v.value == tag {
      FromCase(p, h, n, f, tag, a, mark, rest, v.s);
      RestRuns(p, h, n, f, b, c, mark', ExecS(p, h, n, f, a, v.s.Mark(BlockMark(f, mark))).s);
    } else {
      OnlyDefault(p, h, n, f, tag, a, mark, b, c, mark', v.s);
    }
  }

  lemma Unlabelled(x: Stmt, t: Option<int>)
    requires !x.Case? && !x.Default? && !x.Label?
    ensures !Hits(x, t)
  {
  }

  lemma FromCase<U>(p: Program, h: Host<U>, n: nat, f: FuncId, tag: int, a: Stmt, mark: BlockId, rest: List, s: State<U>)
    ensures ExecFrom(p, h, n, f, Cons(Case(tag, a, mark), rest), Some(tag), s) ==
            var r := ExecS(p, h, n, f, a, s.Mark(BlockMark(f, mark)));
            if r.o.Normal? then ExecL(p, h, n, f, rest, r.s) else r
  {
    var x := Case(tag, a, mark);
    assert Hits(x, Some(tag));
    assert ExecAt(p, h, n, f, x, Some(tag), s) == ExecS(p, h, n, f, x, s);
  }

  lemma RestRuns<U>(p: Program, h: Host<U>, n: nat, f: FuncId, b: Stmt, c: Stmt, mark': BlockId, s: State<U>)
    ensures ExecL(p, h, n, f, Cons(b, Cons(Default(c, mark'), Nil)), s) ==
            var w := ExecS(p, h, n, f, b, s);
            if !w.o.Normal? then w else ExecS(p, h, n, f, c, w.s.Mark(BlockMark(f, mark')))
  {
    PairRuns(p, h, n, f, b, Default(c, mark'), s);
  }

  lemma OnlyDefault<U>(p: Program, h: Host<U>, n: nat, f: FuncId, tag: int, a: Stmt, mark: BlockId,
                       b: Stmt, c: Stmt, mark': BlockId, s: State<U>)
    requires !a.Case? && !a.Default? && !a.Label? && !b.Case? && !b.Default? && !b.Label?
    ensures ExecFrom(p, h, n, f, Cons(Case(tag, a, mark), Cons(b, Cons(Default(c, mark'), Nil))), None, s) ==
            ExecS(p, h, n, f, c, s.Mark(BlockMark(f, mark')))
  {
    var last := Cons(Default(c, mark'), Nil);
    var x := Default(c, mark');
    Unlabelled(a, None);
    Unlabelled(b, None);
    assert Hits(x, None) && !Hits(b, None) && !Hits(Case(tag, a, mark), None);
    assert ExecAt(p, h, n, f, x, None, s) == ExecS(p, h, n, f, x, s);
    var w := ExecS(p, h, n, f, x, s);
    assert w.o.Normal? ==> ExecL(p, h, n, f, Nil, w.s) == w;
    assert ExecFrom(p, h, n, f, last, None, s) == w;
    assert ExecFrom(p, h, n, f, Cons(b, last), None, s) == w;
  }

  /** A void function with an empty body. */
  lemma EmptyCall<U>(p: Program, h: Host<U>, n: nat, g: FuncId, arg: Expr, s: State<U>)
    requires n > 0 && g in p && p[g].body == Nil && EvalE(p, h, n, arg, s).v.Some?
    ensures var v, r := EvalE(p, h, n, arg, s), EvalE(p, h, n, Call(g, arg), s);
            r.v.Some? && r.s.seen == Then(Then(v.s.seen, CallMark(g)), ReturnMark(g))
  {
    var v := EvalE(p, h, n, arg, s);
    var s0 := State(h.bind(g, v.v.value, v.s.user), 0, 0, v.s.log, Then(v.s.seen, CallMark(g)));
    assert ExecL(p, h, n - 1, g, Nil, s0) == Done(Normal, s0);
    assert EvalE(p, h, n, Call(g, arg), s) == Activate(p, h, n - 1, g, v.v.value, v.s);
  }

  /** Operands are evaluated from left to right, and an argument before its call. */
  lemma OperandsInOrder<U>(p: Program, h: Host<U>, n: nat, f: FuncId, g: FuncId, k: FuncId, op: nat, arg: nat, s: State<U>)
    requires n > 0 && f in p && g in p && k in p && p[f].body == p[g].body == p[k].body == Nil
    ensures EvalE(p, h, n, Bin(op, Call(f, Call(k, Op(arg))), Call(g, Op(arg))), s).s.seen ==
            Then(Then(Then(Then(Then(Then(s.seen, CallMark(k)), ReturnMark(k)), CallMark(f)), ReturnMark(f)), CallMark(g)), ReturnMark(g))
  {
    EmptyCall(p, h, n, k, Op(arg), s);
    EmptyCall(p, h, n, f, Call(k, Op(arg)), s);
    var r := EvalE(p, h, n, Call(f, Call(k, Op(arg))), s);
    EmptyCall(p, h, n, g, Op(arg), r.s);
  }

  /** A condition, as an operator or as a statement, chooses the same branch: with branches that only call, the history
      differs by the mark of the branch. */
  lemma ConditionsAgree<U>(p: Program, h: Host<U>, n: nat, f: FuncId, test: nat, thn: Expr, els: Expr,
                           thnBlock: BlockId, elsBlock: BlockId, s: State<U>)
    ensures var t := s.(user := h.act(test, s.user));
            var taken, block := if h.val(test, s.user) != 0 then thn else els, if h.val(test, s.user) != 0 then thnBlock else elsBlock;
            && EvalE(p, h, n, Cond(Op(test), thn, els), s) == EvalE(p, h, n, taken, t)
            && ExecS(p, h, n, f, If(Op(test), Eval(thn), thnBlock, Some(Eval(els)), elsBlock), s) ==
               ExecS(p, h, n, f, Eval(taken), t.Mark(BlockMark(f, block)))
  {
  }
}
