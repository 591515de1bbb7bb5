/**
 Interpreting from the start is a guarded run and, after a miss, the rest of the
 run from the missed call on.
 */
module Resume {
  import opened Tagged
  import opened Ast
  import opened Runtime
  import opened Interpreter
  import opened Continuation
  import opened Guarded

  /* ---- Expressions ---- */

  /** How an expression outcome and the interpreter's evaluation from the same state fit together. */
  ghost predicate ExprAgrees(
    w: World, tab: Table, e: Expr, c: Ctx, o: ExprOutcome)
  {
    var r := EvalExpr(w, tab, e, c.st);
    match o
    case Value(v, st) => r == Val(v, st)
    case ExprFault => r == EvalFault
    case ExprParted => true
    case Miss(id, st) =>
      && id in ExprSites(e)
      && (ResumableExpr(e, id) ==>
            r == RestExpr(w, tab, e, id, st))
  }

  ghost predicate ArgsAgree(w: World, tab: Table, args: seq<Expr>, st: State, o: ArgsOutcome) {
    var r := EvalArgs(w, tab, args, st);
    match o
    case Values(vs, st1) => r == Vals(vs, st1)
    case ArgsFaulted => r == ArgsFault
    case ArgsParted => true
    case ArgsMiss(id, st1) => id in ArgsSites(args)
  }

  /** A guard that is passed calls what the interpreter would call, and leaves the same profile behind. */
  lemma GuardHitIsCachedDispatch(w: World, guards: Guards, site: nat, sel: string, obj: Word, vs: seq<Word>, st: State)
    requires site in guards && obj != 0 && Unmoved(SiteOf(st, site), guards[site])
    requires SoundGuard(guards[site], st.heap, obj) && TestGuard(guards[site], st.heap, obj).Hit?
    ensures Dispatch(w, site, sel, obj, vs, st)
            == (var st' := SetSite(st, site, SiteOf(st, site).(alternativeCount := 0));
                FromCall(w.invoke(guards[site].cached, st', obj, sel, vs)))
  {
  }

  lemma {:induction false} ExecExprAgrees(w: World, tab: Table, guards: Guards, e: Expr, c: Ctx)
    ensures ExprAgrees(w, tab, e, c, ExecExpr(w, tab, guards, e, c.st))
    decreases e, 1
  {
    match e
    case Binary(_, _, _) => ExecBinaryAgrees(w, tab, guards, e, c);
    case MethodCall(_, _, _, _) => ExecMethodCallAgrees(w, tab, guards, e, c);
    case ClosureCall(_, _) => ExecClosureCallAgrees(w, tab, guards, e, c);
    case _ =>
  }

  lemma {:induction false} ExecBinaryAgrees(w: World, tab: Table, guards: Guards, e: Expr, c: Ctx)
    requires e.Binary?
    ensures ExprAgrees(w, tab, e, c, ExecExpr(w, tab, guards, e, c.st))
    decreases e, 0
  {
    ExecExprAgrees(w, tab, guards, e.lhs, c);
    var o := ExecExpr(w, tab, guards, e.lhs, c.st);
    if o.Value? {
      ExecExprAgrees(w, tab, guards, e.rhs, c.(st := o.st));
    }
  }

  lemma {:induction false} ExecClosureCallAgrees(w: World, tab: Table, guards: Guards, e: Expr, c: Ctx)
    requires e.ClosureCall?
    ensures ExprAgrees(w, tab, e, c, ExecExpr(w, tab, guards, e, c.st))
    decreases e, 0
  {
    ExecExprAgrees(w, tab, guards, e.callee, c);
    var o := ExecExpr(w, tab, guards, e.callee, c.st);
    if o.Value? {
      ExecArgsAgree(w, tab, guards, e.args, o.st, c);
    }
  }

  lemma {:induction false} ExecMethodCallAgrees(w: World, tab: Table, guards: Guards, e: Expr, c: Ctx)
    requires e.MethodCall?
    ensures ExprAgrees(w, tab, e, c, ExecExpr(w, tab, guards, e, c.st))
    decreases e, 0
  {
    var MethodCall(site, callee, sel, args) := e;
    ExecExprAgrees(w, tab, guards, callee, c);
    var o := ExecExpr(w, tab, guards, callee, c.st);
    if o.Value? {
      ExecArgsAgree(w, tab, guards, args, o.st, c);
      var a := ExecArgs(w, tab, guards, args, o.st);
      if a.Values? {
        var b := GuardOf(guards, site);
        if SoundGuard(b, a.st.heap, o.v) && site in guards && Unmoved(SiteOf(a.st, site), b) {
          if TestGuard(b, a.st.heap, o.v).Hit? {
            GuardHitIsCachedDispatch(w, guards, site, sel, o.v, a.vs, a.st);
          }
        }
      }
    }
  }

  lemma {:induction false} ExecArgsAgree(w: World, tab: Table, guards: Guards, args: seq<Expr>, st: State, c: Ctx)
    ensures ArgsAgree(w, tab, args, st, ExecArgs(w, tab, guards, args, st))
    decreases args, 0
  {
    if args != [] {
      ExecExprAgrees(w, tab, guards, args[0], c.(st := st));
      var o := ExecExpr(w, tab, guards, args[0], st);
      if o.Value? {
        ExecArgsAgree(w, tab, guards, args[1..], o.st, c);
      }
    }
  }

  /* ---- Statements ---- */

  /** How a statement outcome, its interpretation and its search fit together. */
  ghost predicate Agrees(sites: set<nat>, c: Ctx, o: Outcome, interpreted: Run) {
    match o
    case Normal(st, gas) => interpreted == Done(c.(st := st, gas := gas))
    case Returned(v, st, gas) => interpreted == Done(c.(st := st, gas := gas, retVal := v, isReturning := true))
    case Missed(id, st, gas) => id in sites
    case Faulted => interpreted == Crashed
    case Exhausted => interpreted == OutOfGas
    case Parted => true
  }

  /** The context in which a run goes on after a miss. */
  function ExitCtx(c: Ctx, o: Outcome): Ctx
    requires o.Missed?
  {
    c.(st := o.st, gas := o.gas, found := false)
  }

  predicate Entry(c: Ctx) {
    !c.found && !c.isReturning
  }

  lemma {:induction false} ExecStmtAgrees(w: World, tab: Table, guards: Guards, s: Stmt, c: Ctx)
    requires Entry(c)
    ensures var o := ExecStmt(w, tab, guards, s, c.st, c.gas);
            && Agrees(StmtSites(s), c, o, InterpStmt(w, tab, s, c))
            && (o.Missed? && ResumableStmt(s, o.id) ==>
                  InterpStmt(w, tab, s, c) == RestStmt(w, tab, s, o.id, ExitCtx(c, o)))
    decreases c.gas, s, 1
  {
    match s
    case Decl(_, None) =>
    case Decl(_, Some(e)) => ExecExprAgrees(w, tab, guards, e, c);
    case Assign(_, e) => ExecExprAgrees(w, tab, guards, e, c);
    case Return(e) => ExecExprAgrees(w, tab, guards, e, c);
    case Evaluate(e) => ExecExprAgrees(w, tab, guards, e, c);
    case If(_, _) => ExecIfAgrees(w, tab, guards, s, c);
    case While(_, _) => ExecLoopAgrees(w, tab, guards, s, c);
  }

  lemma {:induction false} ExecIfAgrees(w: World, tab: Table, guards: Guards, s: Stmt, c: Ctx)
    requires s.If? && Entry(c)
    ensures var o := ExecStmt(w, tab, guards, s, c.st, c.gas);
            && Agrees(StmtSites(s), c, o, InterpStmt(w, tab, s, c))
            && (o.Missed? && ResumableStmt(s, o.id) ==>
                  InterpStmt(w, tab, s, c) == RestStmt(w, tab, s, o.id, ExitCtx(c, o)))
    decreases c.gas, s, 0
  {
    ExecExprAgrees(w, tab, guards, s.cond, c);
    var q := ExecExpr(w, tab, guards, s.cond, c.st);
    if q.Value? && Lshr3(q.v) != 0 {
      var c1 := c.(st := q.st);
      ExecBodyAgrees(w, tab, guards, s.body, c1);
    }
  }

  lemma {:induction false} ExecBodyAgrees(w: World, tab: Table, guards: Guards, ss: seq<Stmt>, c: Ctx)
    requires Entry(c)
    ensures var o := ExecBody(w, tab, guards, ss, c.st, c.gas);
            && Agrees(BodySites(ss), c, o, InterpBody(w, tab, ss, c))
            && (o.Missed? && ResumableBody(ss, o.id) ==>
                  InterpBody(w, tab, ss, c) == RestBody(w, tab, ss, o.id, ExitCtx(c, o)))
    decreases c.gas, ss, 0
  {
    if ss != [] {
      ExecStmtAgrees(w, tab, guards, ss[0], c);
      var o := ExecStmt(w, tab, guards, ss[0], c.st, c.gas);
      if o.Normal? {
        ExecBodyAgrees(w, tab, guards, ss[1..], c.(st := o.st, gas := o.gas));
      }
    }
  }

  /** A loop: the miss may come in this iteration or after any number of further ones. */
  lemma {:induction false} ExecLoopAgrees(w: World, tab: Table, guards: Guards, s: Stmt, c: Ctx)
    requires s.While? && Entry(c)
    ensures var o := ExecLoop(w, tab, guards, s.cond, s.body, c.st, c.gas);
            var r := InterpLoop(w, tab, s.cond, s.body, c);
            && Agrees(StmtSites(s), c, o, r)
            && (o.Missed? && ResumableStmt(s, o.id) ==>
                  r == RestStmt(w, tab, s, o.id, ExitCtx(c, o)))
    decreases c.gas, s, 0
  {
    ExecExprAgrees(w, tab, guards, s.cond, c);
    var q := ExecExpr(w, tab, guards, s.cond, c.st);
    if q.Value? && Lshr3(q.v) != 0 && c.gas > 0 {
      var c1 := c.(st := q.st, gas := c.gas - 1);
      ExecBodyAgrees(w, tab, guards, s.body, c1);
      var o := ExecBody(w, tab, guards, s.body, c1.st, c1.gas);
      if o.Normal? {
        ExecLoopAgrees(w, tab, guards, s, c.(st := o.st, gas := o.gas));
      }
    }
  }
}
