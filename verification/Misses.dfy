/** What the interpreter has left to do at a missed call: a miss of a guarded run is a stop of an interpreter run. */
module Misses {
  import opened Tagged
  import opened Ast
  import opened Runtime
  import opened Interpreter
  import opened Guarded
  import opened Resume
  import opened Suspension

  /** Call `id` is due in the state, its guard fails on `obj`, and its arguments leave the state alone. */
  ghost predicate MissedAt(w: World, tab: Table, guards: Guards, call: Option<Expr>, obj: Word, id: nat, st: State) {
    && IsDue(w, tab, call, obj, id, st)
    && id in guards && TestGuard(guards[id], st.heap, obj).Fail?
    && var a := EvalArgs(w, tab, call.value.args, st);
       a.Vals? && a.st == st
  }

  lemma {:induction false} MissedExprGoesOn(
    w: World, tab: Table, guards: Guards, e: Expr, c: Ctx, id: nat, st: State) returns (h: Held)
    requires ExecExpr(w, tab, guards, e, c.st) == Miss(id, st)
    ensures EvalExpr(w, tab, e, c.st) == FinishExpr(w, tab, e, h, st)
    ensures MissedAt(w, tab, guards, Focus(e, h), Receiver(h), id, st)
    decreases e, 2
  {
    h := Due(0);
    match e
    case Binary(_, l, r) =>
      ExecExprAgrees(w, tab, guards, l, c);
      var o := ExecExpr(w, tab, guards, l, c.st);
      if o.Value? {
        var h1 := MissedExprGoesOn(w, tab, guards, r, c.(st := o.st), id, st);
        h := OnRight(o.v, h1);
      } else {
        var h1 := MissedExprGoesOn(w, tab, guards, l, c, id, st);
        h := OnLeft(h1);
      }
    case MethodCall(_, _, _, _) => h := MissedCallGoesOn(w, tab, guards, e, c, id, st);
    case ClosureCall(callee, args) =>
      ExecExprAgrees(w, tab, guards, callee, c);
      var o := ExecExpr(w, tab, guards, callee, c.st);
      if o.Value? {
        var vs, h1 := MissedArgsGoOn(w, tab, guards, args, c.(st := o.st), id, st);
        h := InArgument(o.v, vs, h1);
      } else {
        var h1 := MissedExprGoesOn(w, tab, guards, callee, c, id, st);
        h := InCallee(h1);
      }
    case _ =>
  }

  lemma {:induction false} MissedCallGoesOn(
    w: World, tab: Table, guards: Guards, e: Expr, c: Ctx, id: nat, st: State) returns (h: Held)
    requires e.MethodCall? && ExecExpr(w, tab, guards, e, c.st) == Miss(id, st)
    ensures EvalExpr(w, tab, e, c.st) == FinishExpr(w, tab, e, h, st)
    ensures MissedAt(w, tab, guards, Focus(e, h), Receiver(h), id, st)
    decreases e, 1
  {
    ExecExprAgrees(w, tab, guards, e.callee, c);
    var o := ExecExpr(w, tab, guards, e.callee, c.st);
    if o.Value? {
      ExecArgsAgree(w, tab, guards, e.args, o.st, c);
      var x := ExecArgs(w, tab, guards, e.args, o.st);
      if x.Values? {
        h := Due(o.v);
      } else {
        var vs, h1 := MissedArgsGoOn(w, tab, guards, e.args, c.(st := o.st), id, st);
        h := InArgument(o.v, vs, h1);
      }
    } else {
      var h1 := MissedExprGoesOn(w, tab, guards, e.callee, c, id, st);
      h := InCallee(h1);
    }
  }

  lemma {:induction false} MissedArgsGoOn(
    w: World, tab: Table, guards: Guards, args: seq<Expr>, c: Ctx, id: nat, st: State)
    returns (vs: seq<Word>, h: Held)
    requires ExecArgs(w, tab, guards, args, c.st) == ArgsMiss(id, st)
    ensures EvalArgs(w, tab, args, c.st) == FinishArgs(w, tab, args, vs, h, st)
    ensures MissedAt(w, tab, guards, FocusArgs(args, vs, h), Receiver(h), id, st)
    decreases args, 0
  {
    ExecExprAgrees(w, tab, guards, args[0], c);
    var o := ExecExpr(w, tab, guards, args[0], c.st);
    if o.Value? {
      vs, h := MissedArgsGoOn(w, tab, guards, args[1..], c.(st := o.st), id, st);
      assert ([o.v] + vs)[1..] == vs;
      vs := [o.v] + vs;
    } else {
      h := MissedExprGoesOn(w, tab, guards, args[0], c, id, st);
      vs := [];
    }
  }

  /** A miss is such a stop: interpretation is the guarded run, and then what is left to do at the missed call. */
  lemma {:induction false} MissedStmtGoesOn(
    w: World, tab: Table, guards: Guards, s: Stmt, c: Ctx, id: nat, st: State, gas: nat) returns (p: Point)
    requires Entry(c) && ExecStmt(w, tab, guards, s, c.st, c.gas) == Missed(id, st, gas)
    ensures p.index == 0 && MissedAt(w, tab, guards, FocusStmt(s, p), ReceiverAt(p), id, st)
    ensures InterpStmt(w, tab, s, c) == FinishStmt(w, tab, s, p, c.(st := st, gas := gas))
    decreases c.gas, s, 1
  {
    var h := Due(0);
    p := InExpr(0, h);
    match s
    case Decl(_, None) =>
    case Decl(_, Some(e)) => h := MissedExprGoesOn(w, tab, guards, e, c, id, st); p := InExpr(0, h);
    case Assign(_, e) => h := MissedExprGoesOn(w, tab, guards, e, c, id, st); p := InExpr(0, h);
    case Return(e) => h := MissedExprGoesOn(w, tab, guards, e, c, id, st); p := InExpr(0, h);
    case Evaluate(e) => h := MissedExprGoesOn(w, tab, guards, e, c, id, st); p := InExpr(0, h);
    case If(cond, body) =>
      ExecExprAgrees(w, tab, guards, cond, c);
      var o := ExecExpr(w, tab, guards, cond, c.st);
      if o.Value? {
        p := MissedBodyGoesOn(w, tab, guards, body, c.(st := o.st), id, st, gas);
        p := Inside(0, p);
      } else {
        h := MissedExprGoesOn(w, tab, guards, cond, c, id, st);
        p := InExpr(0, h);
      }
    case While(_, _) => p := MissedLoopGoesOn(w, tab, guards, s, c, id, st, gas);
  }

  /** The body once, and then the loop. */
  function PassThenLoop(w: World, tab: Table, cond: Expr, body: seq<Stmt>, c: Ctx): Run {
    match InterpBody(w, tab, body, c)
    case Done(c1) => InterpLoop(w, tab, cond, body, c1)
    case r => r
  }

  function GuardedPassThenLoop(
    w: World, tab: Table, guards: Guards, cond: Expr, body: seq<Stmt>, st: State, gas: nat): Outcome
  {
    match ExecBody(w, tab, guards, body, st, gas)
    case Normal(st1, gas1) => ExecLoop(w, tab, guards, cond, body, st1, gas1)
    case o => o
  }

  /** A loop that misses does so in its condition, or goes into a pass. */
  lemma MissedLoopUnfolds(
    w: World, tab: Table, guards: Guards, cond: Expr, body: seq<Stmt>, st0: State, gas0: nat, id: nat, st: State,
    gas: nat, o: ExprOutcome)
    requires ExecLoop(w, tab, guards, cond, body, st0, gas0) == Missed(id, st, gas)
    requires o == ExecExpr(w, tab, guards, cond, st0)
    ensures o.Miss? || o.Value?
    ensures o.Miss? ==> o == Miss(id, st) && gas == gas0
    ensures o.Value? ==>
              && Truthy(o.v) && gas0 > 0
              && GuardedPassThenLoop(w, tab, guards, cond, body, o.st, gas0 - 1) == Missed(id, st, gas)
  {
  }

  lemma PassUnfolds(w: World, tab: Table, cond: Expr, body: seq<Stmt>, v: Word, st: State, c: Ctx, c1: Ctx)
    requires Truthy(v) && c.gas > 0 && c1 == c.(st := st, gas := c.gas - 1)
    ensures LoopTested(w, tab, cond, body, Val(v, st), c) == PassThenLoop(w, tab, cond, body, c1)
  {
  }

  lemma {:induction false} MissedLoopGoesOn(
    w: World, tab: Table, guards: Guards, s: Stmt, c: Ctx, id: nat, st: State, gas: nat) returns (p: Point)
    requires s.While? && Entry(c)
    requires ExecLoop(w, tab, guards, s.cond, s.body, c.st, c.gas) == Missed(id, st, gas)
    ensures p.index == 0 && MissedAt(w, tab, guards, FocusStmt(s, p), ReceiverAt(p), id, st)
    ensures InterpLoop(w, tab, s.cond, s.body, c) == FinishStmt(w, tab, s, p, c.(st := st, gas := gas))
    decreases c.gas, s, 0
  {
    var o := ExecExpr(w, tab, guards, s.cond, c.st);
    MissedLoopUnfolds(w, tab, guards, s.cond, s.body, c.st, c.gas, id, st, gas, o);
    LoopUnfolds(w, tab, s.cond, s.body, EvalExpr(w, tab, s.cond, c.st), c);
    if o.Miss? {
      p := MissedTestGoesOn(w, tab, guards, s, c, id, st, gas);
    } else {
      var c1 := c.(st := o.st, gas := c.gas - 1);
      ExecExprAgrees(w, tab, guards, s.cond, c);
      PassUnfolds(w, tab, s.cond, s.body, o.v, o.st, c, c1);
      p := MissedPassGoesOn(w, tab, guards, s, c, c1, id, st, gas);
    }
  }

  lemma {:induction false} MissedTestGoesOn(
    w: World, tab: Table, guards: Guards, s: Stmt, c: Ctx, id: nat, st: State, gas: nat) returns (p: Point)
    requires s.While? && Entry(c) && ExecExpr(w, tab, guards, s.cond, c.st) == Miss(id, st) && gas == c.gas
    ensures p.index == 0 && MissedAt(w, tab, guards, FocusStmt(s, p), ReceiverAt(p), id, st)
    ensures LoopTested(w, tab, s.cond, s.body, EvalExpr(w, tab, s.cond, c.st), c)
         == FinishStmt(w, tab, s, p, c.(st := st, gas := gas))
  {
    var h := MissedExprGoesOn(w, tab, guards, s.cond, c, id, st);
    p := InExpr(0, h);
  }

  /** A pass of the loop: the miss is in this one or in a later one. */
  lemma {:induction false} MissedPassGoesOn(
    w: World, tab: Table, guards: Guards, s: Stmt, c: Ctx, c1: Ctx, id: nat, st: State, gas: nat) returns (p: Point)
    requires s.While? && Entry(c1) && c1.gas < c.gas
    requires GuardedPassThenLoop(w, tab, guards, s.cond, s.body, c1.st, c1.gas) == Missed(id, st, gas)
    ensures p.index == 0 && MissedAt(w, tab, guards, FocusStmt(s, p), ReceiverAt(p), id, st)
    ensures PassThenLoop(w, tab, s.cond, s.body, c1) == FinishStmt(w, tab, s, p, c1.(st := st, gas := gas))
    decreases c1.gas, s, 1
  {
    ExecBodyAgrees(w, tab, guards, s.body, c1);
    var b := ExecBody(w, tab, guards, s.body, c1.st, c1.gas);
    if b.Missed? {
      p := MissedBodyGoesOn(w, tab, guards, s.body, c1, id, st, gas);
      p := Inside(0, p);
    } else {
      p := MissedLoopGoesOn(w, tab, guards, s, c1.(st := b.st, gas := b.gas), id, st, gas);
    }
  }

  lemma {:induction false} MissedBodyGoesOn(
    w: World, tab: Table, guards: Guards, ss: seq<Stmt>, c: Ctx, id: nat, st: State, gas: nat) returns (p: Point)
    requires Entry(c) && ExecBody(w, tab, guards, ss, c.st, c.gas) == Missed(id, st, gas)
    ensures MissedAt(w, tab, guards, FocusBody(ss, p), ReceiverAt(p), id, st)
    ensures InterpBody(w, tab, ss, c) == FinishBody(w, tab, ss, p, c.(st := st, gas := gas))
    decreases c.gas, ss, 0
  {
    ExecStmtAgrees(w, tab, guards, ss[0], c);
    var o := ExecStmt(w, tab, guards, ss[0], c.st, c.gas);
    if o.Normal? {
      p := MissedBodyGoesOn(w, tab, guards, ss[1..], c.(st := o.st, gas := o.gas), id, st, gas);
      p := p.(index := p.index + 1);
    } else {
      p := MissedStmtGoesOn(w, tab, guards, ss[0], c, id, st, gas);
    }
  }
}
