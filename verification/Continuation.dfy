/**
 The rest of a run from a call on, defined without searching: what the search has
 to carry out, and does.
 */
module Continuation {
  import opened Tagged
  import opened Ast
  import opened Runtime
  import opened Interpreter
  import opened SearchLemmas

  /** The value of an expression whose evaluation goes on at call `id`. */
  function RestExpr(w: World, tab: Table, e: Expr, id: nat, st: State): EvalResult
    decreases e
  {
    match e
    case MethodCall(site, callee, sel, args) =>
      (match if site == id then EvalExpr(w, tab, callee, st) else RestExpr(w, tab, callee, id, st)
       case EvalFault => EvalFault
       case Val(obj, st1) => CallMethod(w, tab, site, sel, args, obj, st1))
    case ClosureCall(callee, args) =>
      (match RestExpr(w, tab, callee, id, st)
       case EvalFault => EvalFault
       case Val(obj, st1) => CallClosure(w, tab, args, obj, st1))
    case Binary(op, l, r) =>
      (match RestExpr(w, tab, l, id, st)
       case EvalFault => EvalFault
       case Val(lv, st1) =>
         match EvalExpr(w, tab, r, st1)
         case EvalFault => EvalFault
         case Val(rv, st2) => PerformOp(w, op, lv, rv, st2))
    case _ => EvalFault
  }

  /** A statement that goes on at call `id`, in the current iteration if it is a loop. */
  function RestStmt(w: World, tab: Table, s: Stmt, id: nat, c: Ctx): Run
    decreases s
  {
    match s
    case Decl(x, Some(e)) => Assigned(tab, x, RestExpr(w, tab, e, id, c.st), c)
    case Assign(x, e) => Assigned(tab, x, RestExpr(w, tab, e, id, c.st), c)
    case Return(e) =>
      (match RestExpr(w, tab, e, id, c.st)
       case EvalFault => Crashed
       case Val(v, st) => Done(c.(st := st, retVal := v, isReturning := true)))
    case Evaluate(e) =>
      (match RestExpr(w, tab, e, id, c.st)
       case EvalFault => Crashed
       case Val(_, st) => Done(c.(st := st)))
    case If(_, body) => RestBody(w, tab, body, id, c)
    case While(cond, body) =>
      (match RestBody(w, tab, body, id, c)
       case Done(c1) => InterpLoop(w, tab, cond, body, c1)
       case r => r)
    case _ => Done(c)
  }

  /** A body that goes on at call `id`: the statement with that call, then the statements after it. */
  function RestBody(w: World, tab: Table, ss: seq<Stmt>, id: nat, c: Ctx): Run
    decreases ss
  {
    if ss == [] then Done(c)
    else if id in StmtSites(ss[0]) then
      match RestStmt(w, tab, ss[0], id, c)
      case Done(c1) => InterpBody(w, tab, ss[1..], c1)
      case r => r
    else RestBody(w, tab, ss[1..], id, c)
  }

  /* ---- The search carries it out ---- */

  lemma {:induction false} SearchResumesExpr(w: World, tab: Table, e: Expr, id: nat, c: Ctx)
    requires ResumableExpr(e, id) && !c.found
    ensures SkipExpr(w, tab, e, id, c) == Continue(RestExpr(w, tab, e, id, c.st), c.(found := true))
    decreases e
  {
    match e
    case MethodCall(site, callee, _, _) =>
      if site != id {
        SearchResumesExpr(w, tab, callee, id, c);
      }
    case ClosureCall(callee, _) => SearchResumesExpr(w, tab, callee, id, c);
    case Binary(_, l, _) => SearchResumesExpr(w, tab, l, id, c);
    case _ =>
  }

  /** The rest of a statement or body after the search has created objects; it fails where that fails. */
  function RestStmtAfter(w: World, tab: Table, s: Stmt, id: nat, c: Ctx, walk: Option<State>): Run {
    match walk
    case None => Crashed
    case Some(st) => WithFound(RestStmt(w, tab, s, id, c.(st := st)), true)
  }

  function RestBodyAfter(w: World, tab: Table, ss: seq<Stmt>, id: nat, c: Ctx, walk: Option<State>): Run {
    match walk
    case None => Crashed
    case Some(st) => WithFound(RestBody(w, tab, ss, id, c.(st := st)), true)
  }

  lemma {:induction false} SearchResumesStmt(w: World, tab: Table, s: Stmt, id: nat, c: Ctx)
    requires ResumableStmt(s, id) && !c.found && !c.isReturning
    ensures SkipStmt(w, tab, s, id, c) == RestStmtAfter(w, tab, s, id, c, Walk(w, NewsBeforeStmt(s, id), c.st))
    decreases s, 1
  {
    match s
    case Decl(_, Some(e)) => SearchResumesExpr(w, tab, e, id, c);
    case Assign(_, e) => SearchResumesExpr(w, tab, e, id, c);
    case Return(e) => SearchResumesExpr(w, tab, e, id, c);
    case Evaluate(e) => SearchResumesExpr(w, tab, e, id, c);
    case If(_, _) => SearchResumesIf(w, tab, s, id, c);
    case While(_, _) => SearchResumesLoop(w, tab, s, id, c);
  }

  lemma {:induction false} SearchResumesIf(w: World, tab: Table, s: Stmt, id: nat, c: Ctx)
    requires s.If? && ResumableStmt(s, id) && !c.found && !c.isReturning
    ensures SkipStmt(w, tab, s, id, c) == RestStmtAfter(w, tab, s, id, c, Walk(w, NewsBeforeStmt(s, id), c.st))
    decreases s, 0
  {
    SearchExprIsHarmless(w, tab, s.cond, id, c);
    WalkAppend(w, NewsInExpr(s.cond), NewsBefore(s.body, id), c.st);
    var q := SkipExpr(w, tab, s.cond, id, c);
    if q.At? {
      SearchResumesBody(w, tab, s.body, id, q.c);
    }
  }

  lemma {:induction false} SearchResumesLoop(w: World, tab: Table, s: Stmt, id: nat, c: Ctx)
    requires s.While? && ResumableStmt(s, id) && !c.found && !c.isReturning
    ensures SkipStmt(w, tab, s, id, c) == RestStmtAfter(w, tab, s, id, c, Walk(w, NewsBeforeStmt(s, id), c.st))
    decreases s, 0
  {
    SearchExprIsHarmless(w, tab, s.cond, id, c);
    WalkAppend(w, NewsInExpr(s.cond), NewsBefore(s.body, id), c.st);
    SkipWhileUnfolds(w, tab, s.cond, s.body, id, c);
    var q := SkipExpr(w, tab, s.cond, id, c);
    if q.At? {
      SearchResumesBody(w, tab, s.body, id, q.c);
      var walk := Walk(w, NewsBefore(s.body, id), q.c.st);
      if walk.Some? {
        var r := RestBody(w, tab, s.body, id, q.c.(st := walk.value));
        if r.Done? {
          InterpLoopIgnoresFound(w, tab, s.cond, s.body, r.c, true);
        }
      }
    }
  }

  /**
   The search of a body for a resumable call is the rest of the body from that call
   on, after the creation of one object for each `new` on its way.
   */
  lemma {:induction false} SearchResumesBody(w: World, tab: Table, ss: seq<Stmt>, id: nat, c: Ctx)
    requires ResumableBody(ss, id) && !c.found && !c.isReturning
    ensures SkipBody(w, tab, ss, id, c) == RestBodyAfter(w, tab, ss, id, c, Walk(w, NewsBefore(ss, id), c.st))
    decreases ss, 0
  {
    if id in StmtSites(ss[0]) {
      SearchResumesStmt(w, tab, ss[0], id, c);
      var walk := Walk(w, NewsBefore(ss, id), c.st);
      if walk.Some? {
        FoundHeadGoesOn(w, tab, ss, id, c, RestStmt(w, tab, ss[0], id, c.(st := walk.value)));
      }
    } else {
      SearchStmtIsHarmless(w, tab, ss[0], id, c);
      WalkAppend(w, NewsInStmt(ss[0]), NewsBefore(ss[1..], id), c.st);
      var r := SkipStmt(w, tab, ss[0], id, c);
      if r.Done? {
        SearchResumesBody(w, tab, ss[1..], id, r.c);
      }
    }
  }

  /** A search that ends in the first statement goes on through the rest of the body as the interpreter does. */
  lemma FoundHeadGoesOn(w: World, tab: Table, ss: seq<Stmt>, id: nat, c: Ctx, r: Run)
    requires ss != [] && !c.isReturning && !c.found && SkipStmt(w, tab, ss[0], id, c) == WithFound(r, true)
    ensures SkipBody(w, tab, ss, id, c)
         == WithFound(match r case Done(c1) => InterpBody(w, tab, ss[1..], c1) case _ => r, true)
  {
    if r.Done? {
      FoundSearchInterprets(w, tab, ss[1..], id, r.c.(found := true));
      InterpBodyIgnoresFound(w, tab, ss[1..], r.c, true);
    }
  }
}
