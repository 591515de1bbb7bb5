/** What sequences, conditions, loops and returns do, as rules for reasoning about interpreted code. */
module StatementLaws {
  import opened Tagged
  import opened Ast
  import opened Runtime
  import opened Interpreter

  /** A body is its first part and then, unless that returns, the second. */
  lemma {:induction false} BodyInParts(w: World, tab: Table, first: seq<Stmt>, second: seq<Stmt>, c: Ctx)
    ensures InterpBody(w, tab, first + second, c)
         == match InterpBody(w, tab, first, c)
            case Done(c1) => if c1.isReturning then Done(c1) else InterpBody(w, tab, second, c1)
            case r => r
    decreases first
  {
    if first == [] {
      assert first + second == second;
    } else if !c.isReturning {
      var r := InterpStmt(w, tab, first[0], c);
      assert (first + second)[1..] == first[1..] + second;
      if r.Done? {
        BodyInParts(w, tab, first[1..], second, r.c);
      }
    }
  }

  /** What follows a `return` is not executed, and the value returned is that of the expression. */
  lemma ReturnEndsBody(w: World, tab: Table, e: Expr, rest: seq<Stmt>, c: Ctx)
    requires !c.isReturning
    ensures InterpBody(w, tab, [Return(e)] + rest, c)
         == match EvalExpr(w, tab, e, c.st)
            case Val(v, st) => Done(Ctx(st, v, true, c.found, c.gas))
            case EvalFault => Crashed
  {
    BodyInParts(w, tab, [Return(e)], rest, c);
    assert [Return(e)][1..] == [];
  }

  /** The body of an `if` runs exactly when the condition is neither null nor zero: of all values those are below 8. */
  lemma IfRunsExactlyWhen(w: World, tab: Table, cond: Expr, body: seq<Stmt>, c: Ctx, v: Word, st: State)
    requires EvalExpr(w, tab, cond, c.st) == Val(v, st)
    ensures InterpStmt(w, tab, If(cond, body), c)
         == if v < 8 then Done(c.(st := st)) else InterpBody(w, tab, body, c.(st := st))
    ensures v % 8 == 0 || IsInteger(v) ==> (v < 8 <==> v == 0 || v == Encode(0))
  {
    EncodeDecode(0);
  }

  /** Unless it returns, an execution of the body after a true condition ends where `inv` holds, if it held before. */
  ghost predicate PassKeeps(w: World, tab: Table, cond: Expr, body: seq<Stmt>, inv: State -> bool, c: Ctx) {
    var q := EvalExpr(w, tab, cond, c.st);
    inv(c.st) && q.Val? && q.v >= 8 ==> Holds(InterpBody(w, tab, body, c.(st := q.st)), inv)
  }

  ghost predicate Preserved(w: World, tab: Table, cond: Expr, body: seq<Stmt>, inv: State -> bool) {
    forall c :: PassKeeps(w, tab, cond, body, inv, c)
  }

  predicate Holds(r: Run, inv: State -> bool) {
    r.Done? && !r.c.isReturning ==> inv(r.c.st)
  }

  /** The loop has ended at a test in state `last` that yields `v`. */
  predicate EndsAt(w: World, tab: Table, cond: Expr, r: Run, last: State, v: Word) {
    r.Done? && !r.c.isReturning ==> v < 8 && EvalExpr(w, tab, cond, last) == Val(v, r.c.st)
  }

  /**
   A loop that ends without a return ends at a test of its condition that fails, in a
   state in which everything holds that each pass preserves.
   */
  lemma {:induction false} LoopEnds(w: World, tab: Table, cond: Expr, body: seq<Stmt>, inv: State -> bool, c: Ctx)
    returns (last: State, v: Word)
    requires !c.isReturning && inv(c.st) && Preserved(w, tab, cond, body, inv)
    ensures inv(last) && EndsAt(w, tab, cond, InterpLoop(w, tab, cond, body, c), last, v)
    decreases c.gas, 0
  {
    last, v := c.st, 0;
    var q := EvalExpr(w, tab, cond, c.st);
    if q.Val? && q.v >= 8 && c.gas > 0 {
      var c1 := c.(gas := c.gas - 1);
      var r := InterpBody(w, tab, body, c1.(st := q.st));
      LoopPasses(w, tab, cond, body, q, c, r);
      assert PassKeeps(w, tab, cond, body, inv, c1);
      last, v := PassEnds(w, tab, cond, body, inv, c1, r, last);
    } else {
      v := if q.Val? then q.v else 0;
      LoopStops(w, tab, cond, body, q, c, v);
    }
  }

  lemma LoopPasses(w: World, tab: Table, cond: Expr, body: seq<Stmt>, q: EvalResult, c: Ctx, r: Run)
    requires !c.isReturning && q == EvalExpr(w, tab, cond, c.st) && q.Val? && q.v >= 8 && c.gas > 0
    requires r == InterpBody(w, tab, body, c.(st := q.st, gas := c.gas - 1))
    ensures InterpLoop(w, tab, cond, body, c) == if r.Done? then InterpLoop(w, tab, cond, body, r.c) else r
  {
    LoopUnfolds(w, tab, cond, body, q, c);
  }

  lemma LoopStops(w: World, tab: Table, cond: Expr, body: seq<Stmt>, q: EvalResult, c: Ctx, v: Word)
    requires !c.isReturning && q == EvalExpr(w, tab, cond, c.st) && !(q.Val? && q.v >= 8 && c.gas > 0)
    requires q.Val? ==> v == q.v
    ensures EndsAt(w, tab, cond, InterpLoop(w, tab, cond, body, c), c.st, v)
  {
    LoopUnfolds(w, tab, cond, body, q, c);
  }

  /** After an execution of the body: the rest of the loop, or whatever has stopped it. */
  lemma {:induction false} PassEnds(
    w: World, tab: Table, cond: Expr, body: seq<Stmt>, inv: State -> bool, c: Ctx, r: Run, before: State)
    returns (last: State, v: Word)
    requires inv(before) && Holds(r, inv) && Preserved(w, tab, cond, body, inv) && (r.Done? ==> r.c.gas <= c.gas)
    ensures inv(last)
    ensures EndsAt(w, tab, cond, if r.Done? then InterpLoop(w, tab, cond, body, r.c) else r, last, v)
    decreases c.gas, 1
  {
    last, v := before, 0;
    if r.Done? && !r.c.isReturning {
      last, v := LoopEnds(w, tab, cond, body, inv, r.c);
    }
  }
}
