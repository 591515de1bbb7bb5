/** What the search does while it has not found its target, and what never looks at the search flag. */
module SearchLemmas {
  import opened Tagged
  import opened Ast
  import opened Runtime
  import opened Interpreter

  /* ---- The objects that a search creates ---- */

  /** Creating objects of the classes in turn. */
  function Walk(w: World, news: seq<string>, st: State): Option<State> {
    if news == [] then Some(st)
    else
      match EvalNew(w, news[0], st)
      case EvalFault => None
      case Val(_, st1) => Walk(w, news[1..], st1)
  }

  function WalkFrom(w: World, news: seq<string>, before: Option<State>): Option<State> {
    match before
    case None => None
    case Some(st) => Walk(w, news, st)
  }

  lemma {:induction false} WalkAppend(w: World, a: seq<string>, b: seq<string>, st: State)
    ensures Walk(w, a + b, st) == WalkFrom(w, b, Walk(w, a, st))
    decreases a
  {
    if a == [] {
      assert a + b == b;
    } else {
      assert (a + b)[1..] == a[1..] + b;
      var q := EvalNew(w, a[0], st);
      if q.Val? {
        WalkAppend(w, a[1..], b, q.st);
      }
    }
  }

  ghost predicate HeapGrows(h: Heap, h': Heap) {
    forall o | o in h :: o in h' && h'[o] == h[o]
  }

  /** The created objects are new, there is one for each class, and nothing else has changed. */
  lemma {:induction false} WalkCreates(w: World, news: seq<string>, st: State)
    ensures var walk := Walk(w, news, st);
            walk.Some? ==>
              && walk.value == st.(heap := walk.value.heap)
              && HeapGrows(st.heap, walk.value.heap) && |walk.value.heap| == |st.heap| + |news|
              && (walk.value == st <==> news == [])
    decreases news
  {
    if news != [] {
      var q := EvalNew(w, news[0], st);
      if q.Val? {
        WalkCreates(w, news[1..], q.st);
      }
    }
  }

  /**
   A search that finds nothing has done nothing but create those objects, or has
   failed to; no variable, profile, flag or existing object has changed.
   */
  predicate OnlyWalks(r: Search, c: Ctx, walk: Option<State>) {
    match walk
    case None => r == SearchCrashed
    case Some(st) => r.At? && r.c == c.(st := st)
  }

  function WalkedRun(c: Ctx, walk: Option<State>): Run {
    match walk
    case None => Crashed
    case Some(st) => Done(c.(st := st))
  }

  /** Searching a tree that does not hold the target, nested closure bodies included, only creates objects. */
  lemma {:induction false} SearchExprIsHarmless(w: World, tab: Table, e: Expr, id: nat, c: Ctx)
    requires id !in SearchedExpr(e) && !c.found && !c.isReturning
    ensures OnlyWalks(SkipExpr(w, tab, e, id, c), c, Walk(w, NewsInExpr(e), c.st))
    decreases e
  {
    match e
    case Number(_) =>
    case VarRef(_) =>
    case Binary(_, l, r) =>
      SearchExprIsHarmless(w, tab, l, id, c);
      WalkAppend(w, NewsInExpr(l), NewsInExpr(r), c.st);
      var q := SkipExpr(w, tab, l, id, c);
      if q.At? {
        SearchExprIsHarmless(w, tab, r, id, q.c);
      }
    case MethodCall(_, callee, _, _) =>
      SearchExprIsHarmless(w, tab, callee, id, c);
    case ClosureCall(callee, _) =>
      SearchExprIsHarmless(w, tab, callee, id, c);
    case NewObject(cls) =>
      var q := EvalNew(w, cls, c.st);
      assert q.Val? ==> Walk(w, [cls][1..], q.st) == Some(q.st);
    case ClosureLiteral(closure) =>
      SearchBodyIsHarmless(w, tab, closure.body, id, c);
  }

  lemma {:induction false} SearchStmtIsHarmless(w: World, tab: Table, s: Stmt, id: nat, c: Ctx)
    requires id !in SearchedStmt(s) && !c.found && !c.isReturning
    ensures SkipStmt(w, tab, s, id, c) == WalkedRun(c, Walk(w, NewsInStmt(s), c.st))
    decreases s
  {
    match s
    case Decl(_, None) =>
    case Decl(_, Some(e)) => SearchExprIsHarmless(w, tab, e, id, c);
    case Assign(_, e) => SearchExprIsHarmless(w, tab, e, id, c);
    case Return(e) => SearchExprIsHarmless(w, tab, e, id, c);
    case Evaluate(e) => SearchExprIsHarmless(w, tab, e, id, c);
    case If(cond, body) =>
      SearchExprIsHarmless(w, tab, cond, id, c);
      WalkAppend(w, NewsInExpr(cond), NewsInBody(body), c.st);
      var q := SkipExpr(w, tab, cond, id, c);
      if q.At? {
        SearchBodyIsHarmless(w, tab, body, id, q.c);
      }
    case While(cond, body) =>
      SearchExprIsHarmless(w, tab, cond, id, c);
      WalkAppend(w, NewsInExpr(cond), NewsInBody(body), c.st);
      SkipWhileUnfolds(w, tab, cond, body, id, c);
      var q := SkipExpr(w, tab, cond, id, c);
      if q.At? {
        SearchBodyIsHarmless(w, tab, body, id, q.c);
      }
  }

  lemma {:induction false} SearchBodyIsHarmless(w: World, tab: Table, ss: seq<Stmt>, id: nat, c: Ctx)
    requires id !in SearchedBody(ss) && !c.found && !c.isReturning
    ensures SkipBody(w, tab, ss, id, c) == WalkedRun(c, Walk(w, NewsInBody(ss), c.st))
    decreases ss
  {
    if ss != [] {
      SearchStmtIsHarmless(w, tab, ss[0], id, c);
      WalkAppend(w, NewsInStmt(ss[0]), NewsInBody(ss[1..]), c.st);
      var r := SkipStmt(w, tab, ss[0], id, c);
      if r.Done? {
        SearchBodyIsHarmless(w, tab, ss[1..], id, r.c);
      }
    }
  }

  /* ---- Ordinary interpretation ignores the search flag ---- */

  function WithFound(r: Run, found: bool): Run {
    match r
    case Done(c) => Done(c.(found := found))
    case _ => r
  }

  lemma {:induction false} InterpStmtIgnoresFound(w: World, tab: Table, s: Stmt, c: Ctx, found: bool)
    ensures InterpStmt(w, tab, s, c.(found := found)) == WithFound(InterpStmt(w, tab, s, c), found)
    decreases c.gas, s, 1
  {
    match s
    case If(cond, body) =>
      var q := EvalExpr(w, tab, cond, c.st);
      if q.Val? {
        InterpBodyIgnoresFound(w, tab, body, c.(st := q.st), found);
      }
    case While(cond, body) => InterpLoopIgnoresFound(w, tab, cond, body, c, found);
    case _ =>
  }

  lemma {:induction false} InterpBodyIgnoresFound(w: World, tab: Table, ss: seq<Stmt>, c: Ctx, found: bool)
    ensures InterpBody(w, tab, ss, c.(found := found)) == WithFound(InterpBody(w, tab, ss, c), found)
    decreases c.gas, ss, 0
  {
    if ss != [] && !c.isReturning {
      InterpStmtIgnoresFound(w, tab, ss[0], c, found);
      var r := InterpStmt(w, tab, ss[0], c);
      if r.Done? {
        InterpBodyIgnoresFound(w, tab, ss[1..], r.c, found);
      }
    }
  }

  lemma {:induction false} InterpLoopIgnoresFound(
    w: World, tab: Table, cond: Expr, body: seq<Stmt>, c: Ctx, found: bool)
    ensures InterpLoop(w, tab, cond, body, c.(found := found)) == WithFound(InterpLoop(w, tab, cond, body, c), found)
    decreases c.gas, body, 1
  {
    if !c.isReturning {
      var q := EvalExpr(w, tab, cond, c.st);
      if q.Val? && Truthy(q.v) && c.gas > 0 {
        var c0 := c.(st := q.st, gas := c.gas - 1);
        InterpBodyIgnoresFound(w, tab, body, c0, found);
        var r := InterpBody(w, tab, body, c0);
        if r.Done? {
          InterpLoopIgnoresFound(w, tab, cond, body, r.c, found);
        }
      }
    }
  }

  /** After the node is found, the search of a body is its interpretation. */
  lemma {:induction false} FoundSearchInterprets(w: World, tab: Table, ss: seq<Stmt>, id: nat, c: Ctx)
    requires c.found
    ensures SkipBody(w, tab, ss, id, c) == InterpBody(w, tab, ss, c)
    decreases ss
  {
    if ss != [] && !c.isReturning {
      InterpStmtIgnoresFound(w, tab, ss[0], c, true);
      var r := InterpStmt(w, tab, ss[0], c);
      if r.Done? {
        assert c == c.(found := true);
        FoundSearchInterprets(w, tab, ss[1..], id, r.c);
      }
    }
  }
}
