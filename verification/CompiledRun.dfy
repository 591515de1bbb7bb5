/**
 What compiled code does, on every input: the run of a body that takes each step as
 the generated code does, also where that is not what the interpreter does. It stops
 with `Missed` at a failing guard, and with `Parted` only where compiled code reads
 the class pointer of something that is no object.
 */
module CompiledRun {
  import opened Tagged
  import opened Ast
  import opened Runtime
  import opened Interpreter
  import opened Guarded
  import opened Ir

  /* ---- Expressions ---- */

  function JitExpr(w: World, tab: Table, guards: Guards, e: Expr, st: State): ExprOutcome
    decreases e, 0
  {
    match e
    case Number(n) => Value(Encode(n), st)
    case VarRef(x) => Value(LookupSymbol(tab, st, x), st)
    case Binary(op, l, r) =>
      (match JitExpr(w, tab, guards, l, st)
       case Value(lv, st1) =>
         (match JitExpr(w, tab, guards, r, st1)
          case Value(rv, st2) => JitOp(w, op, lv, rv, st2)
          case o => o)
       case o => o)
    case MethodCall(site, callee, sel, args) =>
      (match JitExpr(w, tab, guards, callee, st)
       case Value(obj, st1) =>
         (match JitArgs(w, tab, guards, args, st1)
          case Values(vs, st2) => JitGuarded(w, guards, site, sel, obj, vs, st2)
          case ArgsMiss(id, st2) => Miss(id, st2)
          case ArgsFaulted => ExprFault
          case ArgsParted => ExprParted)
       case o => o)
    case ClosureCall(callee, args) =>
      (match JitExpr(w, tab, guards, callee, st)
       case Value(obj, st1) =>
         (match JitArgs(w, tab, guards, args, st1)
          case Values(vs, st2) => if obj == 0 then ExprFault else FromEval(FromCall(w.closure(st2, obj, vs)))
          case ArgsMiss(id, st2) => Miss(id, st2)
          case ArgsFaulted => ExprFault
          case ArgsParted => ExprParted)
       case o => o)
    case NewObject(cls) => FromEval(EvalNew(w, cls, st))
    case ClosureLiteral(c) => JitClosure(w, tab, c, st)
  }

  function JitArgs(w: World, tab: Table, guards: Guards, args: seq<Expr>, st: State): ArgsOutcome
    decreases args, 0
  {
    if args == [] then Values([], st)
    else
      match JitExpr(w, tab, guards, args[0], st)
      case Miss(id, st1) => ArgsMiss(id, st1)
      case ExprFault => ArgsFaulted
      case ExprParted => ArgsParted
      case Value(v, st1) =>
        match JitArgs(w, tab, guards, args[1..], st1)
        case Values(vs, st2) => Values([v] + vs, st2)
        case o => o
  }

  /** Whole words are compared, and a helper asserts that what follows an integer is one. */
  function JitOp(w: World, op: BinOp, l: Word, r: Word, st: State): ExprOutcome {
    match op
    case Comparison(c) => Value(Bool(WordCompare(c, l, r)), st)
    case Arithmetic(a) => FromEval(FromCall(RunHelper(w, a, l, r, st)))
  }

  /** The guard; then, on a hit, the counter reset and the call through the slot compiled in, whatever it is by now. */
  function JitGuarded(
    w: World, guards: Guards, site: nat, sel: string, obj: Word, vs: seq<Word>, st: State): ExprOutcome
  {
    var b := GuardOf(guards, site);
    match TestGuard(b, st.heap, obj)
    case Undefined => ExprParted
    case Fail => Miss(site, st)
    case Hit =>
      if b.cached == 0 then ExprFault
      else FromEval(FromCall(
        w.invoke(b.cached, SetSite(st, site, SiteOf(st, site).(alternativeCount := 0)), obj, sel, vs)))
  }

  /** A literal: the object is built with the captured words, then the closure's name is set. */
  function CreateCompiled(w: World, tab: Table, c: Closure, st: State): (Word, State) {
    var (o, st1) := BuildClosure(w, st, c, AddressesOf(tab, c.boundVars));
    (o, SetSymbol(tab, st1, c.name, o))
  }

  function JitClosure(w: World, tab: Table, c: Closure, st: State): ExprOutcome {
    if MemoryFull(w, st.heap) then ExprFault
    else
      var (o, st1) := CreateCompiled(w, tab, c, st);
      Value(o, st1)
  }

  /* ---- Statements ---- */

  function JitBody(w: World, tab: Table, guards: Guards, ss: seq<Stmt>, st: State, gas: nat): (o: Outcome)
    ensures o.Normal? ==> o.gas <= gas
    decreases gas, ss, 0
  {
    if ss == [] then Normal(st, gas)
    else
      match JitStmt(w, tab, guards, ss[0], st, gas)
      case Normal(st1, gas1) => JitBody(w, tab, guards, ss[1..], st1, gas1)
      case o => o
  }

  /** A declaration without initialiser generates nothing, whatever the variable holds. */
  function JitStmt(w: World, tab: Table, guards: Guards, s: Stmt, st: State, gas: nat): (o: Outcome)
    ensures o.Normal? ==> o.gas <= gas
    decreases gas, s, 1
  {
    match s
    case Decl(_, None) => Normal(st, gas)
    case Decl(x, Some(e)) => ExecAssign(tab, x, JitExpr(w, tab, guards, e, st), gas)
    case Assign(x, e) => ExecAssign(tab, x, JitExpr(w, tab, guards, e, st), gas)
    case Return(e) =>
      (match JitExpr(w, tab, guards, e, st)
       case Value(v, st1) => Returned(v, st1, gas)
       case o => Stopped(o, gas))
    case Evaluate(e) =>
      (match JitExpr(w, tab, guards, e, st)
       case Value(_, st1) => Normal(st1, gas)
       case o => Stopped(o, gas))
    case If(cond, body) =>
      (match JitExpr(w, tab, guards, cond, st)
       case Value(v, st1) =>
         if Lshr3(v) != 0 then JitBody(w, tab, guards, body, st1, gas) else Normal(st1, gas)
       case o => Stopped(o, gas))
    case While(cond, body) => JitLoop(w, tab, guards, cond, body, st, gas)
  }

  function JitLoop(
    w: World, tab: Table, guards: Guards, cond: Expr, body: seq<Stmt>, st: State, gas: nat): (o: Outcome)
    ensures o.Normal? ==> o.gas <= gas
    decreases gas, body, 1
  {
    match JitExpr(w, tab, guards, cond, st)
    case Value(v, st1) =>
      if Lshr3(v) == 0 then Normal(st1, gas)
      else if gas == 0 then Exhausted
      else
        (match JitBody(w, tab, guards, body, st1, gas - 1)
         case Normal(st2, gas2) => JitLoop(w, tab, guards, cond, body, st2, gas2)
         case o => o)
    case o => Stopped(o, gas)
  }

  /* ---- As far as the guarded run goes ---- */

  /** Where compiled code and the interpreter have not parted, the guarded run is what compiled code does. */
  lemma {:induction false} ExecExprIsCompiled(w: World, tab: Table, guards: Guards, e: Expr, st: State)
    requires !ExecExpr(w, tab, guards, e, st).ExprParted?
    ensures JitExpr(w, tab, guards, e, st) == ExecExpr(w, tab, guards, e, st)
    decreases e, 0
  {
    match e
    case Number(_) =>
    case VarRef(_) =>
    case Binary(op, l, r) =>
      ExecExprIsCompiled(w, tab, guards, l, st);
      var q := ExecExpr(w, tab, guards, l, st);
      if q.Value? {
        ExecExprIsCompiled(w, tab, guards, r, q.st);
      }
    case MethodCall(_, callee, _, args) =>
      ExecExprIsCompiled(w, tab, guards, callee, st);
      var q := ExecExpr(w, tab, guards, callee, st);
      if q.Value? {
        ExecArgsAreCompiled(w, tab, guards, args, q.st);
      }
    case ClosureCall(callee, args) =>
      ExecExprIsCompiled(w, tab, guards, callee, st);
      var q := ExecExpr(w, tab, guards, callee, st);
      if q.Value? {
        ExecArgsAreCompiled(w, tab, guards, args, q.st);
      }
    case NewObject(_) =>
    case ClosureLiteral(c) => EmptyLiteral(w, tab, c, st);
  }

  lemma {:induction false} ExecArgsAreCompiled(w: World, tab: Table, guards: Guards, args: seq<Expr>, st: State)
    requires !ExecArgs(w, tab, guards, args, st).ArgsParted?
    ensures JitArgs(w, tab, guards, args, st) == ExecArgs(w, tab, guards, args, st)
    decreases args, 0
  {
    if args != [] {
      ExecExprIsCompiled(w, tab, guards, args[0], st);
      var q := ExecExpr(w, tab, guards, args[0], st);
      if q.Value? {
        ExecArgsAreCompiled(w, tab, guards, args[1..], q.st);
      }
    }
  }

  /** Without bound variables both build the same object. */
  lemma EmptyLiteral(w: World, tab: Table, c: Closure, st: State)
    requires c.boundVars == []
    ensures JitClosure(w, tab, c, st) == FromEval(EvalClosure(w, tab, c, st))
  {
    assert AddressesOf(tab, c.boundVars) == [];
    assert ClosureHeader(w, c) + Zeros(0) == ClosureHeader(w, c) + LoadAll(st, []);
  }

  lemma {:induction false} ExecBodyIsCompiled(w: World, tab: Table, guards: Guards, ss: seq<Stmt>, st: State, gas: nat)
    requires !ExecBody(w, tab, guards, ss, st, gas).Parted?
    ensures JitBody(w, tab, guards, ss, st, gas) == ExecBody(w, tab, guards, ss, st, gas)
    decreases gas, ss, 0
  {
    if ss != [] {
      ExecStmtIsCompiled(w, tab, guards, ss[0], st, gas);
      var o := ExecStmt(w, tab, guards, ss[0], st, gas);
      if o.Normal? {
        ExecBodyIsCompiled(w, tab, guards, ss[1..], o.st, o.gas);
      }
    }
  }

  lemma {:induction false} ExecStmtIsCompiled(w: World, tab: Table, guards: Guards, s: Stmt, st: State, gas: nat)
    requires !ExecStmt(w, tab, guards, s, st, gas).Parted?
    ensures JitStmt(w, tab, guards, s, st, gas) == ExecStmt(w, tab, guards, s, st, gas)
    decreases gas, s, 1
  {
    match s
    case Decl(_, None) =>
    case Decl(_, Some(e)) => ExecExprIsCompiled(w, tab, guards, e, st);
    case Assign(_, e) => ExecExprIsCompiled(w, tab, guards, e, st);
    case Return(e) => ExecExprIsCompiled(w, tab, guards, e, st);
    case Evaluate(e) => ExecExprIsCompiled(w, tab, guards, e, st);
    case If(cond, body) =>
      ExecExprIsCompiled(w, tab, guards, cond, st);
      var q := ExecExpr(w, tab, guards, cond, st);
      if q.Value? && Lshr3(q.v) != 0 {
        ExecBodyIsCompiled(w, tab, guards, body, q.st, gas);
      }
    case While(cond, body) => ExecLoopIsCompiled(w, tab, guards, cond, body, st, gas);
  }

  lemma {:induction false} ExecLoopIsCompiled(
    w: World, tab: Table, guards: Guards, cond: Expr, body: seq<Stmt>, st: State, gas: nat)
    requires !ExecLoop(w, tab, guards, cond, body, st, gas).Parted?
    ensures JitLoop(w, tab, guards, cond, body, st, gas) == ExecLoop(w, tab, guards, cond, body, st, gas)
    decreases gas, body, 1
  {
    ExecExprIsCompiled(w, tab, guards, cond, st);
    var q := ExecExpr(w, tab, guards, cond, st);
    if q.Value? && Lshr3(q.v) != 0 && gas > 0 {
      ExecBodyIsCompiled(w, tab, guards, body, q.st, gas - 1);
      var o := ExecBody(w, tab, guards, body, q.st, gas - 1);
      if o.Normal? {
        ExecLoopIsCompiled(w, tab, guards, cond, body, o.st, o.gas);
      }
    }
  }
}
