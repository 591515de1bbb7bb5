/** A body can be run with any symbol table that resolves the names it mentions in the same way. */
module Scoping {
  import opened Tagged
  import opened Ast
  import opened Runtime
  import opened Interpreter

  /** Every name mentioned, initialisers and nested bodies included. */
  function ExprNames(e: Expr): set<string>
    decreases e
  {
    match e
    case Number(_) => {}
    case VarRef(x) => {x}
    case Binary(_, l, r) => ExprNames(l) + ExprNames(r)
    case MethodCall(_, callee, _, args) => ExprNames(callee) + ArgsNames(args)
    case ClosureCall(callee, args) => ExprNames(callee) + ArgsNames(args)
    case NewObject(_) => {}
    case ClosureLiteral(c) => {c.name} + (set x | x in c.boundVars) + BodyNames(c.body)
  }

  function ArgsNames(args: seq<Expr>): set<string>
    decreases args
  {
    if args == [] then {} else ExprNames(args[0]) + ArgsNames(args[1..])
  }

  function StmtNames(s: Stmt): set<string>
    decreases s
  {
    match s
    case Decl(x, None) => {x}
    case Decl(x, Some(e)) => {x} + ExprNames(e)
    case Assign(x, e) => {x} + ExprNames(e)
    case Return(e) => ExprNames(e)
    case Evaluate(e) => ExprNames(e)
    case If(c, b) => ExprNames(c) + BodyNames(b)
    case While(c, b) => ExprNames(c) + BodyNames(b)
  }

  function BodyNames(ss: seq<Stmt>): set<string>
    decreases ss
  {
    if ss == [] then {} else StmtNames(ss[0]) + BodyNames(ss[1..])
  }

  ghost predicate SameOn(names: set<string>, t: Table, t': Table) {
    forall x | x in names :: Resolve(t, x) == Resolve(t', x)
  }

  /* ---- Evaluation ---- */

  lemma {:induction false} EvalExprSame(w: World, t: Table, t': Table, e: Expr, st: State)
    requires SameOn(ExprNames(e), t, t')
    ensures EvalExpr(w, t, e, st) == EvalExpr(w, t', e, st)
    decreases e, 1
  {
    match e
    case Number(_) =>
    case VarRef(_) =>
    case Binary(_, l, r) =>
      EvalExprSame(w, t, t', l, st);
      var q := EvalExpr(w, t, l, st);
      if q.Val? {
        EvalExprSame(w, t, t', r, q.st);
      }
    case MethodCall(site, callee, sel, args) =>
      EvalExprSame(w, t, t', callee, st);
      var q := EvalExpr(w, t, callee, st);
      if q.Val? {
        EvalArgsSame(w, t, t', args, q.st);
      }
    case ClosureCall(callee, args) =>
      EvalExprSame(w, t, t', callee, st);
      var q := EvalExpr(w, t, callee, st);
      if q.Val? {
        EvalArgsSame(w, t, t', args, q.st);
      }
    case NewObject(_) =>
    case ClosureLiteral(c) => EvalClosureSame(w, t, t', c, st);
  }

  lemma {:induction false} EvalArgsSame(w: World, t: Table, t': Table, args: seq<Expr>, st: State)
    requires SameOn(ArgsNames(args), t, t')
    ensures EvalArgs(w, t, args, st) == EvalArgs(w, t', args, st)
    decreases args, 0
  {
    if args != [] {
      EvalExprSame(w, t, t', args[0], st);
      var q := EvalExpr(w, t, args[0], st);
      if q.Val? {
        EvalArgsSame(w, t, t', args[1..], q.st);
      }
    }
  }

  lemma {:induction false} CapturedSame(t: Table, t': Table, st: State, names: seq<string>)
    requires forall x | x in names :: Resolve(t, x) == Resolve(t', x)
    ensures CapturedTwice(t, st, names) == CapturedTwice(t', st, names)
    decreases names
  {
    if names != [] {
      assert names[0] in names;
      CapturedSame(t, t', st, names[1..]);
    }
  }

  lemma EvalClosureSame(w: World, t: Table, t': Table, c: Closure, st: State)
    requires Resolve(t, c.name) == Resolve(t', c.name)
    requires forall x | x in c.boundVars :: Resolve(t, x) == Resolve(t', x)
    ensures EvalClosure(w, t, c, st) == EvalClosure(w, t', c, st)
  {
    var o := w.allocate(st.heap);
    var st1 := SetSymbol(t, st.(heap := st.heap[o := ClosureHeader(w, c) + Zeros(|c.boundVars|)]), c.name, o);
    CapturedSame(t, t', st1, c.boundVars);
    assert (exists x | x in c.boundVars :: !HasStorage(t, st1, x))
      == (exists x | x in c.boundVars :: !HasStorage(t', st1, x));
  }

  /* ---- Interpretation ---- */

  lemma {:induction false} InterpStmtSame(w: World, t: Table, t': Table, s: Stmt, c: Ctx)
    requires SameOn(StmtNames(s), t, t')
    ensures InterpStmt(w, t, s, c) == InterpStmt(w, t', s, c)
    decreases c.gas, s, 1
  {
    match s
    case Decl(_, None) =>
    case Decl(_, Some(e)) => EvalExprSame(w, t, t', e, c.st);
    case Assign(_, e) => EvalExprSame(w, t, t', e, c.st);
    case Return(e) => EvalExprSame(w, t, t', e, c.st);
    case Evaluate(e) => EvalExprSame(w, t, t', e, c.st);
    case If(cond, body) =>
      EvalExprSame(w, t, t', cond, c.st);
      var q := EvalExpr(w, t, cond, c.st);
      if q.Val? {
        InterpBodySame(w, t, t', body, c.(st := q.st));
      }
    case While(cond, body) => InterpLoopSame(w, t, t', cond, body, c);
  }

  lemma {:induction false} InterpBodySame(w: World, t: Table, t': Table, ss: seq<Stmt>, c: Ctx)
    requires SameOn(BodyNames(ss), t, t')
    ensures InterpBody(w, t, ss, c) == InterpBody(w, t', ss, c)
    decreases c.gas, ss, 0
  {
    if ss != [] && !c.isReturning {
      InterpStmtSame(w, t, t', ss[0], c);
      var r := InterpStmt(w, t, ss[0], c);
      if r.Done? {
        InterpBodySame(w, t, t', ss[1..], r.c);
      }
    }
  }

  lemma {:induction false} InterpLoopSame(w: World, t: Table, t': Table, cond: Expr, body: seq<Stmt>, c: Ctx)
    requires SameOn(ExprNames(cond) + BodyNames(body), t, t')
    ensures InterpLoop(w, t, cond, body, c) == InterpLoop(w, t', cond, body, c)
    decreases c.gas, body, 1
  {
    if !c.isReturning {
      EvalExprSame(w, t, t', cond, c.st);
      var q := EvalExpr(w, t, cond, c.st);
      if q.Val? && Truthy(q.v) && c.gas > 0 {
        var c0 := c.(st := q.st, gas := c.gas - 1);
        InterpBodySame(w, t, t', body, c0);
        var r := InterpBody(w, t, body, c0);
        if r.Done? {
          InterpLoopSame(w, t, t', cond, body, r.c);
        }
      }
    }
  }

  /* ---- Searching ---- */

  lemma {:induction false} SkipExprSame(w: World, t: Table, t': Table, e: Expr, id: nat, c: Ctx)
    requires SameOn(ExprNames(e), t, t')
    ensures SkipExpr(w, t, e, id, c) == SkipExpr(w, t', e, id, c)
    decreases c.gas, e, 2
  {
    match e
    case Number(_) =>
    case VarRef(_) =>
    case Binary(_, l, r) =>
      SkipExprSame(w, t, t', l, id, c);
      var q := SkipExpr(w, t, l, id, c);
      if q.At? {
        EvalExprSame(w, t, t', r, q.c.st);
        SkipExprSame(w, t, t', r, id, q.c);
      }
    case MethodCall(_, callee, _, args) =>
      SkipExprSame(w, t, t', callee, id, c);
      var q := SkipExpr(w, t, callee, id, c);
      if q.At? {
        EvalArgsSame(w, t, t', args, q.c.st);
      }
    case ClosureCall(callee, args) =>
      SkipExprSame(w, t, t', callee, id, c);
      var q := SkipExpr(w, t, callee, id, c);
      if q.At? {
        EvalArgsSame(w, t, t', args, q.c.st);
      }
    case NewObject(_) =>
    case ClosureLiteral(closure) => SkipBodySame(w, t, t', closure.body, id, c);
  }

  lemma {:induction false} SkipBodySame(w: World, t: Table, t': Table, ss: seq<Stmt>, id: nat, c: Ctx)
    requires SameOn(BodyNames(ss), t, t')
    ensures SkipBody(w, t, ss, id, c) == SkipBody(w, t', ss, id, c)
    decreases c.gas, ss, 0
  {
    if ss != [] && !c.isReturning {
      InterpStmtSame(w, t, t', ss[0], c);
      SkipStmtSame(w, t, t', ss[0], id, c);
      var r := if c.found then InterpStmt(w, t, ss[0], c) else SkipStmt(w, t, ss[0], id, c);
      if r.Done? {
        SkipBodySame(w, t, t', ss[1..], id, r.c);
      }
    }
  }

  lemma {:induction false} SkipStmtSame(w: World, t: Table, t': Table, s: Stmt, id: nat, c: Ctx)
    requires SameOn(StmtNames(s), t, t')
    ensures SkipStmt(w, t, s, id, c) == SkipStmt(w, t', s, id, c)
    decreases c.gas, s, 3
  {
    match s
    case Decl(_, None) =>
    case Decl(_, Some(e)) => SkipExprSame(w, t, t', e, id, c);
    case Assign(_, e) => SkipExprSame(w, t, t', e, id, c);
    case Return(e) => SkipExprSame(w, t, t', e, id, c);
    case Evaluate(e) => SkipExprSame(w, t, t', e, id, c);
    case If(_, _) => SkipIfSame(w, t, t', s, id, c);
    case While(_, _) => SkipWhileSame(w, t, t', s, id, c);
  }

  lemma {:induction false} SkipIfSame(w: World, t: Table, t': Table, s: Stmt, id: nat, c: Ctx)
    requires s.If? && SameOn(StmtNames(s), t, t')
    ensures SkipStmt(w, t, s, id, c) == SkipStmt(w, t', s, id, c)
    decreases c.gas, s, 2
  {
    SkipExprSame(w, t, t', s.cond, id, c);
    var q := SkipExpr(w, t, s.cond, id, c);
    if q.At? {
      InterpBodySame(w, t, t', s.body, q.c);
      SkipBodySame(w, t, t', s.body, id, q.c);
    }
  }

  lemma {:induction false} SkipWhileSame(w: World, t: Table, t': Table, s: Stmt, id: nat, c: Ctx)
    requires s.While? && SameOn(StmtNames(s), t, t')
    ensures SkipStmt(w, t, s, id, c) == SkipStmt(w, t', s, id, c)
    decreases c.gas, s, 2
  {
    SkipExprSame(w, t, t', s.cond, id, c);
    SkipWhileUnfolds(w, t, s.cond, s.body, id, c);
    SkipWhileUnfolds(w, t', s.cond, s.body, id, c);
    var q := SkipExpr(w, t, s.cond, id, c);
    if q.At? {
      SkipLoopSame(w, t, t', s.cond, s.body, id, q.v, q.c);
    }
  }

  lemma {:induction false} SkipLoopSame(
    w: World, t: Table, t': Table, cond: Expr, body: seq<Stmt>, id: nat, v: Word, c: Ctx)
    requires SameOn(ExprNames(cond) + BodyNames(body), t, t')
    ensures SearchedLoop(w, t, cond, body, id, v, c) == SearchedLoop(w, t', cond, body, id, v, c)
    decreases c.gas, body, 1
  {
    SkipBodySame(w, t, t', body, id, c);
    var r := SkipBody(w, t, body, id, c);
    if r.Done? {
      InterpLoopSame(w, t, t', cond, body, r.c);
    }
    if c.gas > 0 {
      var c0 := c.(gas := c.gas - 1);
      InterpBodySame(w, t, t', body, c0);
      var q := InterpBody(w, t, body, c0);
      if q.Done? {
        InterpLoopSame(w, t, t', cond, body, q.c);
      }
    }
  }
}
