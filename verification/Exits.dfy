/** Side exits from the places the search does not handle well, and exactly when they go right. */
module Exits {
  import opened Tagged
  import opened Ast
  import opened Runtime
  import opened Interpreter
  import opened SearchLemmas
  import opened Guarded
  import opened Continuation
  import opened Resume

  /** A miss inside condition `cond` in context `c`: `st` is the exit state, `v` and `st'` what the interpreter gets. */
  ghost predicate ConditionMiss(
    w: World, tab: Table, guards: Guards, cond: Expr, id: nat, c: Ctx, st: State, v: Word, st': State)
  {
    && Entry(c)
    && ExecExpr(w, tab, guards, cond, c.st) == Miss(id, st)
    && ResumableExpr(cond, id)
    && EvalExpr(w, tab, cond, c.st) == Val(v, st')
  }

  /** The search finds the condition's own value and state. */
  lemma ConditionIsResumed(
    w: World, tab: Table, guards: Guards, cond: Expr, id: nat, c: Ctx, st: State, v: Word, st': State)
    requires ConditionMiss(w, tab, guards, cond, id, c, st, v, st')
    ensures SkipExpr(w, tab, cond, id, c.(st := st)) == At(v, c.(st := st', found := true))
  {
    ExecExprAgrees(w, tab, guards, cond, c);
    SearchResumesExpr(w, tab, cond, id, c.(st := st));
  }

  /** Resuming inside the condition of an if statement runs the body whatever the condition's value is. */
  lemma IfConditionExit(
    w: World, tab: Table, guards: Guards, cond: Expr, body: seq<Stmt>, id: nat, c: Ctx, st: State, v: Word, st': State)
    requires ConditionMiss(w, tab, guards, cond, id, c, st, v, st')
    ensures SkipStmt(w, tab, If(cond, body), id, c.(st := st)) == InterpBody(w, tab, body, c.(st := st', found := true))
  {
    ConditionIsResumed(w, tab, guards, cond, id, c, st, v, st');
    FoundSearchInterprets(w, tab, body, id, c.(st := st', found := true));
  }

  /** So an exit from the condition of an if statement is right for every body exactly when the condition holds. */
  lemma IfConditionExitIsRight(
    w: World, tab: Table, guards: Guards, cond: Expr, id: nat, c: Ctx, st: State, v: Word, st': State)
    requires ConditionMiss(w, tab, guards, cond, id, c, st, v, st')
    ensures (forall body ::
               SkipStmt(w, tab, If(cond, body), id, c.(st := st))
               == WithFound(InterpStmt(w, tab, If(cond, body), c), true))
            <==> Truthy(v)
  {
    if Truthy(v) {
      forall body
        ensures SkipStmt(w, tab, If(cond, body), id, c.(st := st))
                == WithFound(InterpStmt(w, tab, If(cond, body), c), true)
      {
        IfConditionExit(w, tab, guards, cond, body, id, c, st, v, st');
        InterpBodyIgnoresFound(w, tab, body, c.(st := st'), true);
      }
    } else {
      var body := [Return(Number(1))];
      IfConditionExit(w, tab, guards, cond, body, id, c, st, v, st');
      assert SkipStmt(w, tab, If(cond, body), id, c.(st := st))
          != WithFound(InterpStmt(w, tab, If(cond, body), c), true);
    }
  }

  /** The same law for loops: on a false condition the body runs once and then the loop starts over. */
  lemma WhileConditionExitIsRight(
    w: World, tab: Table, guards: Guards, cond: Expr, id: nat, c: Ctx, st: State, v: Word, st': State)
    requires ConditionMiss(w, tab, guards, cond, id, c, st, v, st')
    ensures (forall body ::
               SkipStmt(w, tab, While(cond, body), id, c.(st := st))
               == WithFound(InterpStmt(w, tab, While(cond, body), c), true))
            <==> Truthy(v)
  {
    ConditionIsResumed(w, tab, guards, cond, id, c, st, v, st');
    if Truthy(v) {
      forall body
        ensures SkipStmt(w, tab, While(cond, body), id, c.(st := st))
                == WithFound(InterpStmt(w, tab, While(cond, body), c), true)
      {
        ResumedLoopTest(w, tab, body, cond, id, c, st, v, st');
      }
    } else {
      var body := [Return(Number(1))];
      FoundSearchInterprets(w, tab, body, id, c.(st := st', found := true));
      assert SkipStmt(w, tab, While(cond, body), id, c.(st := st))
          != WithFound(InterpStmt(w, tab, While(cond, body), c), true);
    }
  }

  lemma ResumedLoopTest(
    w: World, tab: Table, body: seq<Stmt>, cond: Expr, id: nat, c: Ctx, st: State, v: Word, st': State)
    requires SkipExpr(w, tab, cond, id, c.(st := st)) == At(v, c.(st := st', found := true))
    requires EvalExpr(w, tab, cond, c.st) == Val(v, st') && Truthy(v) && !c.isReturning
    ensures SkipStmt(w, tab, While(cond, body), id, c.(st := st))
            == WithFound(InterpStmt(w, tab, While(cond, body), c), true)
  {
    LoopOnTruth(w, tab, body, cond, c, v, st');
    SearchLoopOnTruth(w, tab, body, cond, id, c.(st := st), v, c.(st := st', found := true));
    PassIgnoresFound(w, tab, body, cond, c.(st := st'));
  }

  lemma PassIgnoresFound(w: World, tab: Table, body: seq<Stmt>, cond: Expr, c: Ctx)
    ensures PassAndLoop(w, tab, cond, body, c.(found := true)) == WithFound(PassAndLoop(w, tab, cond, body, c), true)
  {
    if c.gas > 0 {
      var c0 := c.(gas := c.gas - 1);
      InterpBodyIgnoresFound(w, tab, body, c0, true);
      var r := InterpBody(w, tab, body, c0);
      if r.Done? {
        InterpLoopIgnoresFound(w, tab, cond, body, r.c, true);
      }
    }
  }

  lemma LoopOnTruth(w: World, tab: Table, body: seq<Stmt>, cond: Expr, c: Ctx, v: Word, st': State)
    requires EvalExpr(w, tab, cond, c.st) == Val(v, st') && Truthy(v) && !c.isReturning
    ensures InterpStmt(w, tab, While(cond, body), c) == PassAndLoop(w, tab, cond, body, c.(st := st'))
  {
    LoopUnfolds(w, tab, cond, body, Val(v, st'), c);
  }

  lemma SearchLoopOnTruth(
    w: World, tab: Table, body: seq<Stmt>, cond: Expr, id: nat, c: Ctx, v: Word, c1: Ctx)
    requires SkipExpr(w, tab, cond, id, c) == At(v, c1) && Truthy(v) && c1.found
    ensures SkipStmt(w, tab, While(cond, body), id, c) == PassAndLoop(w, tab, cond, body, c1)
  {
  }

  /* ---- Right operands ---- */

  /** A miss in the right operand: `lv` is the left operand, `st1` the state after it and `st` the exit state. */
  ghost predicate RightMiss(
    w: World, tab: Table, guards: Guards, l: Expr, r: Expr, id: nat, c: Ctx, lv: Word, st1: State, st: State)
  {
    && Entry(c)
    && ExecExpr(w, tab, guards, l, c.st) == Value(lv, st1)
    && ExecExpr(w, tab, guards, r, st1) == Miss(id, st)
    && ResumableExpr(r, id) && id !in SearchedExpr(l)
  }

  /** What goes on after the right operand has been evaluated in state `st`, with `lv` on the left. */
  function AfterRight(w: World, tab: Table, op: BinOp, lv: Word, r: Expr, id: nat, st: State): EvalResult {
    match RestExpr(w, tab, r, id, st)
    case EvalFault => EvalFault
    case Val(v, st') => PerformOp(w, op, lv, v, st')
  }

  lemma RightOperandIsInterpreted(
    w: World, tab: Table, guards: Guards, op: BinOp, l: Expr, r: Expr, id: nat, c: Ctx, lv: Word, st1: State, st: State)
    requires RightMiss(w, tab, guards, l, r, id, c, lv, st1, st)
    ensures EvalExpr(w, tab, Binary(op, l, r), c.st) == AfterRight(w, tab, op, lv, r, id, st)
  {
    ExecExprAgrees(w, tab, guards, l, c);
    ExecExprAgrees(w, tab, guards, r, c.(st := st1));
  }

  /**
   A miss in the right operand is resumed with null for the left one, after the
   search has created an object for each `new` in the left operand.
   */
  lemma RightOperandExit(
    w: World, tab: Table, guards: Guards, op: BinOp, l: Expr, r: Expr, id: nat, c: Ctx, lv: Word, st1: State, st: State)
    requires RightMiss(w, tab, guards, l, r, id, c, lv, st1, st)
    ensures SkipExpr(w, tab, Binary(op, l, r), id, c.(st := st))
            == match Walk(w, NewsInExpr(l), st)
               case None => SearchCrashed
               case Some(st2) =>
                 Continue(AfterRight(w, tab, op, 0, r, id, st2), c.(st := st2, found := true))
    ensures EvalExpr(w, tab, Binary(op, l, r), c.st) == AfterRight(w, tab, op, lv, r, id, st)
  {
    RightOperandIsInterpreted(w, tab, guards, op, l, r, id, c, lv, st1, st);
    SearchExprIsHarmless(w, tab, l, id, c.(st := st));
    var q := SkipExpr(w, tab, l, id, c.(st := st));
    if q.At? {
      SearchResumesExpr(w, tab, r, id, q.c);
    }
    SkipBinaryUnfolds(w, tab, op, l, r, id, c.(st := st));
  }

  /** Null on the left gives what `lv` gives. */
  predicate NullServes(w: World, op: BinOp, lv: Word, v: Word, st: State) {
    match op
    case Comparison(c) => ShiftedCompare(c, 0, v) == ShiftedCompare(c, lv, v)
    case Arithmetic(a) => PerformOp(w, op, 0, v, st) == PerformOp(w, op, lv, v, st)
  }

  lemma NullServesExactlyWhen(w: World, op: BinOp, lv: Word, v: Word, st: State)
    ensures PerformOp(w, op, 0, v, st) == PerformOp(w, op, lv, v, st) <==> NullServes(w, op, lv, v, st)
    ensures op == Comparison(Eq) ==>
              (NullServes(w, op, lv, v, st) <==> Shr3(lv) == 0 || (Shr3(v) != 0 && Shr3(lv) != Shr3(v)))
    ensures op.Arithmetic? && w.overload(op.arith, st, 0, v).Fault? ==>
              (NullServes(w, op, lv, v, st) <==> PerformOp(w, op, lv, v, st) == EvalFault)
  {
    assert Bool(true) == 9 && Bool(false) == 1;
  }

  /**
   A right-operand exit goes on as it should exactly when null serves in place of
   the left operand: for comparisons, when both compare alike with the right operand;
   for arithmetic, where null has no methods, only when the operation fails anyway.
   When the left operand creates no objects, going on as it should is interpretation.
   */
  lemma RightOperandExitIsRight(
    w: World, tab: Table, guards: Guards, op: BinOp, l: Expr, r: Expr, id: nat, c: Ctx, lv: Word, st1: State, st: State)
    requires RightMiss(w, tab, guards, l, r, id, c, lv, st1, st)
    ensures var walk := Walk(w, NewsInExpr(l), st);
            walk.Some? ==>
              var rest := RestExpr(w, tab, r, id, walk.value);
              SkipExpr(w, tab, Binary(op, l, r), id, c.(st := st))
              == Continue(AfterRight(w, tab, op, lv, r, id, walk.value), c.(st := walk.value, found := true))
              <==> rest.EvalFault? || NullServes(w, op, lv, rest.v, rest.st)
    ensures NewsInExpr(l) == [] ==>
              var rest := RestExpr(w, tab, r, id, st);
              SkipExpr(w, tab, Binary(op, l, r), id, c.(st := st))
              == Continue(EvalExpr(w, tab, Binary(op, l, r), c.st), c.(st := st, found := true))
              <==> rest.EvalFault? || NullServes(w, op, lv, rest.v, rest.st)
  {
    RightOperandExit(w, tab, guards, op, l, r, id, c, lv, st1, st);
    var walk := Walk(w, NewsInExpr(l), st);
    if walk.Some? {
      var rest := RestExpr(w, tab, r, id, walk.value);
      if rest.Val? {
        NullServesExactlyWhen(w, op, lv, rest.v, rest.st);
      }
    }
  }
}
