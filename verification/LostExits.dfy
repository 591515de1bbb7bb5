/**
 Side exits from calls that the search does not reach, which are the calls in
 arguments, and from calls whose receiver it cannot compute again. In the first
 case the function ends at the exit; the missed call still has to leave its mark
 in its own profile, so that this is never right outside loops.
 */
module LostExits {
  import opened Tagged
  import opened Ast
  import opened Runtime
  import opened Interpreter
  import opened SearchLemmas
  import opened Continuation
  import opened Guarded
  import opened Suspension
  import opened Misses
  import opened Scoping
  import opened Frames
  import opened Ir
  import opened Deopt

  /* ---- What leaves a profile alone ---- */

  ghost predicate KeepsSite(r: CallResult, st: State, id: nat) {
    r.Ret? ==> SiteOf(r.st, id) == SiteOf(st, id)
  }

  /** Callees do not execute call `id`: they are other functions. */
  ghost predicate CalleesKeep(w: World, id: nat) {
    && (forall slot, st, obj, sel, vs :: KeepsSite(w.invoke(slot, st, obj, sel, vs), st, id))
    && (forall st, obj, vs :: KeepsSite(w.closure(st, obj, vs), st, id))
    && (forall op, st, l, r :: KeepsSite(w.overload(op, st, l, r), st, id))
  }

  lemma OperatorKeepsSite(w: World, op: BinOp, l: Word, r: Word, st: State, id: nat)
    requires CalleesKeep(w, id)
    ensures var q := PerformOp(w, op, l, r, st); q.Val? ==> SiteOf(q.st, id) == SiteOf(st, id)
  {
    if op.Arithmetic? {
      assert KeepsSite(w.overload(op.arith, st, l, r), st, id);
    }
  }

  lemma DispatchKeepsSite(w: World, site: nat, sel: string, obj: Word, vs: seq<Word>, st: State, id: nat)
    requires CalleesKeep(w, id) && site != id
    ensures var q := Dispatch(w, site, sel, obj, vs, st); q.Val? ==> SiteOf(q.st, id) == SiteOf(st, id)
  {
    match Profile(SiteOf(st, site), ClassOf(st.heap, obj))
    case Cached(s) =>
      var st1 := SetSite(st, site, s);
      assert KeepsSite(w.invoke(s.cached, st1, obj, sel, vs), st1, id);
    case Lookup(s, _) =>
      var slot := w.lookup(ClassOf(st.heap, obj), sel);
      var st1 := SetSite(st, site, s.(cached := slot));
      assert KeepsSite(w.invoke(slot, st1, obj, sel, vs), st1, id);
  }

  lemma {:induction false} EvalKeepsSite(w: World, tab: Table, e: Expr, st: State, id: nat)
    requires CalleesKeep(w, id) && id !in ExprSites(e)
    ensures var q := EvalExpr(w, tab, e, st); q.Val? ==> SiteOf(q.st, id) == SiteOf(st, id)
    decreases e, 1
  {
    match e
    case Binary(op, l, r) =>
      EvalKeepsSite(w, tab, l, st, id);
      var q := EvalExpr(w, tab, l, st);
      if q.Val? {
        EvalKeepsSite(w, tab, r, q.st, id);
        var q' := EvalExpr(w, tab, r, q.st);
        if q'.Val? {
          OperatorKeepsSite(w, op, q.v, q'.v, q'.st, id);
        }
      }
    case MethodCall(site, callee, sel, args) =>
      EvalKeepsSite(w, tab, callee, st, id);
      var q := EvalExpr(w, tab, callee, st);
      if q.Val? {
        ArgsKeepSite(w, tab, args, q.st, id);
        var a := EvalArgs(w, tab, args, q.st);
        if a.Vals? {
          DispatchKeepsSite(w, site, sel, q.v, a.vs, a.st, id);
        }
      }
    case ClosureCall(callee, args) =>
      EvalKeepsSite(w, tab, callee, st, id);
      var q := EvalExpr(w, tab, callee, st);
      if q.Val? {
        ArgsKeepSite(w, tab, args, q.st, id);
        var a := EvalArgs(w, tab, args, q.st);
        assert a.Vals? ==> KeepsSite(w.closure(a.st, q.v, a.vs), a.st, id);
      }
    case _ =>
  }

  lemma {:induction false} ArgsKeepSite(w: World, tab: Table, args: seq<Expr>, st: State, id: nat)
    requires CalleesKeep(w, id) && id !in ArgsSites(args)
    ensures var a := EvalArgs(w, tab, args, st); a.Vals? ==> SiteOf(a.st, id) == SiteOf(st, id)
    decreases args, 0
  {
    if args != [] {
      EvalKeepsSite(w, tab, args[0], st, id);
      var q := EvalExpr(w, tab, args[0], st);
      if q.Val? {
        ArgsKeepSite(w, tab, args[1..], q.st, id);
      }
    }
  }

  lemma {:induction false} StmtKeepsSite(w: World, tab: Table, s: Stmt, c: Ctx, id: nat)
    requires CalleesKeep(w, id) && id !in StmtSites(s)
    ensures var r := InterpStmt(w, tab, s, c); r.Done? ==> SiteOf(r.c.st, id) == SiteOf(c.st, id)
    decreases c.gas, s, 1
  {
    match s
    case Decl(_, None) =>
    case Decl(_, Some(e)) => EvalKeepsSite(w, tab, e, c.st, id);
    case Assign(_, e) => EvalKeepsSite(w, tab, e, c.st, id);
    case Return(e) => EvalKeepsSite(w, tab, e, c.st, id);
    case Evaluate(e) => EvalKeepsSite(w, tab, e, c.st, id);
    case If(cond, body) =>
      EvalKeepsSite(w, tab, cond, c.st, id);
      var q := EvalExpr(w, tab, cond, c.st);
      if q.Val? {
        BodyKeepsSite(w, tab, body, c.(st := q.st), id);
      }
    case While(cond, body) => LoopKeepsSite(w, tab, cond, body, c, id);
  }

  lemma {:induction false} BodyKeepsSite(w: World, tab: Table, ss: seq<Stmt>, c: Ctx, id: nat)
    requires CalleesKeep(w, id) && id !in BodySites(ss)
    ensures var r := InterpBody(w, tab, ss, c); r.Done? ==> SiteOf(r.c.st, id) == SiteOf(c.st, id)
    decreases c.gas, ss, 0
  {
    if ss != [] && !c.isReturning {
      StmtKeepsSite(w, tab, ss[0], c, id);
      var r := InterpStmt(w, tab, ss[0], c);
      if r.Done? {
        BodyKeepsSite(w, tab, ss[1..], r.c, id);
      }
    }
  }

  lemma {:induction false} LoopKeepsSite(w: World, tab: Table, cond: Expr, body: seq<Stmt>, c: Ctx, id: nat)
    requires CalleesKeep(w, id) && id !in ExprSites(cond) && id !in BodySites(body)
    ensures var r := InterpLoop(w, tab, cond, body, c); r.Done? ==> SiteOf(r.c.st, id) == SiteOf(c.st, id)
    decreases c.gas, body, 1
  {
    if !c.isReturning {
      EvalKeepsSite(w, tab, cond, c.st, id);
      var q := EvalExpr(w, tab, cond, c.st);
      if q.Val? && Truthy(q.v) && c.gas > 0 {
        var c0 := c.(st := q.st, gas := c.gas - 1);
        BodyKeepsSite(w, tab, body, c0, id);
        var r := InterpBody(w, tab, body, c0);
        if r.Done? {
          LoopKeepsSite(w, tab, cond, body, r.c, id);
        }
      }
    }
  }

  /* ---- The missed call moves its profile ---- */

  /** Integers are no heap objects. */
  ghost predicate NoBoxedIntegers(h: Heap) {
    forall o | o in h && h[o] != [] :: h[o][0] != SMALL_INT_CLASS
  }

  /** A class other than the assumed one always changes the profile. */
  lemma OtherClassMoves(s: Site, cls: Word, slot: nat)
    requires cls != s.assumed
    ensures Profile(s, cls).Lookup? && Profile(s, cls).site.(cached := slot) != s
  {
  }

  lemma FailedGuardMeansOtherClass(b: Baked, heap: Heap, obj: Word)
    requires obj != 0 && TestGuard(b, heap, obj).Fail? && NoBoxedIntegers(heap)
    ensures ClassOf(heap, obj) != b.assumed
  {
  }

  /** Callees keep to their own calls, and the site still has the class that was compiled in. */
  ghost predicate MissHere(w: World, guards: Guards, id: nat, st: State) {
    CalleesKeep(w, id) && NoBoxedIntegers(st.heap) && SiteOf(st, id).assumed == GuardOf(guards, id).assumed
  }

  lemma MissedDispatchMoves(w: World, guards: Guards, id: nat, sel: string, obj: Word, vs: seq<Word>, st: State)
    requires MissHere(w, guards, id, st) && id in guards
    requires obj != 0 && TestGuard(guards[id], st.heap, obj).Fail?
    ensures var q := Dispatch(w, id, sel, obj, vs, st); q.Val? ==> SiteOf(q.st, id) != SiteOf(st, id)
  {
    var cls := ClassOf(st.heap, obj);
    FailedGuardMeansOtherClass(guards[id], st.heap, obj);
    var slot := w.lookup(cls, sel);
    OtherClassMoves(SiteOf(st, id), cls, slot);
    var st1 := SetSite(st, id, Profile(SiteOf(st, id), cls).site.(cached := slot));
    assert KeepsSite(w.invoke(slot, st1, obj, sel, vs), st1, id);
  }

  /** Evaluation from the missed call on leaves another profile than the exit found. */
  lemma {:induction false} FinishExprMoves(w: World, tab: Table, guards: Guards, e: Expr, h: Held, id: nat, st: State)
    requires MissHere(w, guards, id, st) && MissedAt(w, tab, guards, Focus(e, h), Receiver(h), id, st)
    requires OnceExpr(e, id)
    ensures var q := FinishExpr(w, tab, e, h, st); q.Val? ==> SiteOf(q.st, id) != SiteOf(st, id)
    decreases e, 1
  {
    match e
    case Binary(_, _, _) => FinishBinaryMoves(w, tab, guards, e, h, id, st);
    case MethodCall(_, _, _, _) => FinishCallMoves(w, tab, guards, e, h, id, st);
    case ClosureCall(_, _) => FinishClosureCallMoves(w, tab, guards, e, h, id, st);
    case _ =>
  }

  lemma {:induction false} FinishBinaryMoves(w: World, tab: Table, guards: Guards, e: Expr, h: Held, id: nat, st: State)
    requires e.Binary?
    requires MissHere(w, guards, id, st) && MissedAt(w, tab, guards, Focus(e, h), Receiver(h), id, st)
    requires OnceExpr(e, id)
    ensures var q := FinishExpr(w, tab, e, h, st); q.Val? ==> SiteOf(q.st, id) != SiteOf(st, id)
    decreases e, 0
  {
    FocusIsExecuted(e, h, id);
    match h
    case OnLeft(h1) =>
      FocusIsExecuted(e.lhs, h1, id);
      FinishExprMoves(w, tab, guards, e.lhs, h1, id, st);
      var q := FinishExpr(w, tab, e.lhs, h1, st);
      if q.Val? {
        EvalKeepsSite(w, tab, e.rhs, q.st, id);
        var q1 := EvalExpr(w, tab, e.rhs, q.st);
        if q1.Val? {
          OperatorKeepsSite(w, e.op, q.v, q1.v, q1.st, id);
        }
      }
    case OnRight(lv, h1) =>
      FinishExprMoves(w, tab, guards, e.rhs, h1, id, st);
      var q := FinishExpr(w, tab, e.rhs, h1, st);
      if q.Val? {
        OperatorKeepsSite(w, e.op, lv, q.v, q.st, id);
      }
    case _ =>
  }

  lemma {:induction false} FinishClosureCallMoves(
    w: World, tab: Table, guards: Guards, e: Expr, h: Held, id: nat, st: State)
    requires e.ClosureCall?
    requires MissHere(w, guards, id, st) && MissedAt(w, tab, guards, Focus(e, h), Receiver(h), id, st)
    requires OnceExpr(e, id)
    ensures var q := FinishExpr(w, tab, e, h, st); q.Val? ==> SiteOf(q.st, id) != SiteOf(st, id)
    decreases e, 0
  {
    match h
    case InCallee(h1) =>
      FocusIsExecuted(e.callee, h1, id);
      FinishExprMoves(w, tab, guards, e.callee, h1, id, st);
      var q := FinishExpr(w, tab, e.callee, h1, st);
      if q.Val? {
        ArgsKeepSite(w, tab, e.args, q.st, id);
        var a := EvalArgs(w, tab, e.args, q.st);
        assert a.Vals? ==> KeepsSite(w.closure(a.st, q.v, a.vs), a.st, id);
      }
    case InArgument(obj, vs, h1) =>
      FinishArgsMove(w, tab, guards, e.args, vs, h1, id, st);
      var a := FinishArgs(w, tab, e.args, vs, h1, st);
      assert a.Vals? ==> KeepsSite(w.closure(a.st, obj, a.vs), a.st, id);
    case _ =>
  }

  lemma {:induction false} FinishCallMoves(w: World, tab: Table, guards: Guards, e: Expr, h: Held, id: nat, st: State)
    requires e.MethodCall?
    requires MissHere(w, guards, id, st) && MissedAt(w, tab, guards, Focus(e, h), Receiver(h), id, st)
    requires OnceExpr(e, id)
    ensures var q := FinishExpr(w, tab, e, h, st); q.Val? ==> SiteOf(q.st, id) != SiteOf(st, id)
    decreases e, 0
  {
    match h
    case Due(obj) =>
      if obj != 0 {
        var a := EvalArgs(w, tab, e.args, st);
        MissedDispatchMoves(w, guards, id, e.selector, obj, a.vs, st);
      }
    case InCallee(h1) =>
      FocusIsExecuted(e.callee, h1, id);
      FinishExprMoves(w, tab, guards, e.callee, h1, id, st);
      var q := FinishExpr(w, tab, e.callee, h1, st);
      if q.Val? {
        CallKeepsSite(w, tab, e, q.v, q.st, id);
      }
    case InArgument(obj, vs, h1) =>
      FocusIsInArgs(e.args, vs, h1, id);
      FinishArgsMove(w, tab, guards, e.args, vs, h1, id, st);
      var a := FinishArgs(w, tab, e.args, vs, h1, st);
      if a.Vals? {
        DispatchKeepsSite(w, e.site, e.selector, obj, a.vs, a.st, id);
      }
    case _ =>
  }

  lemma CallKeepsSite(w: World, tab: Table, e: Expr, obj: Word, st: State, id: nat)
    requires e.MethodCall? && CalleesKeep(w, id) && id != e.site && id !in ArgsSites(e.args)
    ensures var q := CallMethod(w, tab, e.site, e.selector, e.args, obj, st);
            q.Val? ==> SiteOf(q.st, id) == SiteOf(st, id)
  {
    ArgsKeepSite(w, tab, e.args, st, id);
    var a := EvalArgs(w, tab, e.args, st);
    if a.Vals? {
      DispatchKeepsSite(w, e.site, e.selector, obj, a.vs, a.st, id);
    }
  }

  lemma {:induction false} FinishArgsMove(
    w: World, tab: Table, guards: Guards, args: seq<Expr>, vs: seq<Word>, h: Held, id: nat, st: State)
    requires MissHere(w, guards, id, st) && OnceArgs(args, id)
    requires MissedAt(w, tab, guards, FocusArgs(args, vs, h), Receiver(h), id, st)
    ensures var a := FinishArgs(w, tab, args, vs, h, st); a.Vals? ==> SiteOf(a.st, id) != SiteOf(st, id)
    decreases args, 0
  {
    if vs != [] {
      FinishArgsMove(w, tab, guards, args[1..], vs[1..], h, id, st);
    } else {
      FocusIsExecuted(args[0], h, id);
      FinishExprMoves(w, tab, guards, args[0], h, id, st);
      var q := FinishExpr(w, tab, args[0], h, st);
      if q.Val? {
        ArgsKeepSite(w, tab, args[1..], q.st, id);
      }
    }
  }

  /* ---- Statements ---- */

  /**
   The run that has gone on from the missed call has left its mark in the profile,
   unless it has made another loop pass since, which no call outside loops allows.
   */
  predicate WentOn(r: Run, id: nat, c: Ctx, looped: bool) {
    r.Done? ==> r.c.gas <= c.gas && (SiteOf(r.c.st, id) != SiteOf(c.st, id) || (looped && r.c.gas < c.gas))
  }

  lemma {:induction false} FinishStmtWentOn(w: World, tab: Table, guards: Guards, s: Stmt, p: Point, id: nat, c: Ctx)
    requires MissHere(w, guards, id, c.st) && MissedAt(w, tab, guards, FocusStmt(s, p), ReceiverAt(p), id, c.st)
    requires OnceStmt(s, id)
    ensures WentOn(FinishStmt(w, tab, s, p, c), id, c, id in LoopSitesStmt(s))
    decreases s, 1
  {
    match (s, p)
    case (If(cond, body), InExpr(_, h)) =>
      FocusIsExecuted(cond, h, id);
      FinishExprMoves(w, tab, guards, cond, h, id, c.st);
      var q := FinishExpr(w, tab, cond, h, c.st);
      if q.Val? && Truthy(q.v) {
        BodyKeepsSite(w, tab, body, c.(st := q.st), id);
      }
    case (If(_, body), Inside(_, p1)) => FinishBodyWentOn(w, tab, guards, body, p1, id, c);
    case (While(_, _), _) => FinishLoopWentOn(w, tab, guards, s, p, id, c);
    case (Decl(_, Some(e)), InExpr(_, h)) => FinishExprMoves(w, tab, guards, e, h, id, c.st);
    case (Assign(_, e), InExpr(_, h)) => FinishExprMoves(w, tab, guards, e, h, id, c.st);
    case (Return(e), InExpr(_, h)) => FinishExprMoves(w, tab, guards, e, h, id, c.st);
    case (Evaluate(e), InExpr(_, h)) => FinishExprMoves(w, tab, guards, e, h, id, c.st);
    case _ =>
  }

  lemma {:induction false} FinishLoopWentOn(w: World, tab: Table, guards: Guards, s: Stmt, p: Point, id: nat, c: Ctx)
    requires s.While?
    requires MissHere(w, guards, id, c.st) && MissedAt(w, tab, guards, FocusStmt(s, p), ReceiverAt(p), id, c.st)
    requires OnceStmt(s, id)
    ensures WentOn(FinishStmt(w, tab, s, p, c), id, c, true) && id in LoopSitesStmt(s)
    decreases s, 0
  {
    FocusIsInStmt(s, p, id);
    match p
    case InExpr(_, h) => FinishExprMoves(w, tab, guards, s.cond, h, id, c.st);
    case Inside(_, p1) =>
      FocusIsInBody(s.body, p1, id);
      FinishBodyWentOn(w, tab, guards, s.body, p1, id, c);
      var r := FinishBody(w, tab, s.body, p1, c);
      if r.Done? && !r.c.isReturning {
        EvalKeepsSite(w, tab, s.cond, r.c.st, id);
        LoopUnfolds(w, tab, s.cond, s.body, EvalExpr(w, tab, s.cond, r.c.st), r.c);
      }
  }

  lemma {:induction false} FinishBodyWentOn(
    w: World, tab: Table, guards: Guards, ss: seq<Stmt>, p: Point, id: nat, c: Ctx)
    requires MissHere(w, guards, id, c.st) && MissedAt(w, tab, guards, FocusBody(ss, p), ReceiverAt(p), id, c.st)
    requires OnceBody(ss, id)
    ensures WentOn(FinishBody(w, tab, ss, p, c), id, c, id in LoopSites(ss))
    decreases ss, 0
  {
    if p.index > 0 {
      FinishBodyWentOn(w, tab, guards, ss[1..], p.(index := p.index - 1), id, c);
    } else {
      FocusIsInStmt(ss[0], p, id);
      FinishStmtWentOn(w, tab, guards, ss[0], p, id, c);
      var r := FinishStmt(w, tab, ss[0], p, c);
      if r.Done? {
        BodyKeepsSite(w, tab, ss[1..], r.c, id);
      }
    }
  }

  /* ---- Calls in arguments ---- */

  lemma {:induction false} UnsearchedCallIsArgument(e: Expr)
    ensures ExprSites(e) <= SearchedExpr(e) + ArgumentSites(e)
    decreases e
  {
    match e
    case Binary(_, l, r) =>
      UnsearchedCallIsArgument(l);
      UnsearchedCallIsArgument(r);
    case MethodCall(_, callee, _, _) => UnsearchedCallIsArgument(callee);
    case ClosureCall(callee, _) => UnsearchedCallIsArgument(callee);
    case _ =>
  }

  /** The executed calls that the search does not look at are the calls in arguments. */
  lemma {:induction false} UnsearchedIsArgument(ss: seq<Stmt>)
    ensures BodySites(ss) <= SearchedBody(ss) + ArgumentSitesIn(ss)
    decreases ss
  {
    if ss != [] {
      UnsearchedIsArgument(ss[1..]);
      match ss[0]
      case Decl(_, None) =>
      case Decl(_, Some(e)) => UnsearchedCallIsArgument(e);
      case Assign(_, e) => UnsearchedCallIsArgument(e);
      case Return(e) => UnsearchedCallIsArgument(e);
      case Evaluate(e) => UnsearchedCallIsArgument(e);
      case If(c, b) =>
        UnsearchedCallIsArgument(c);
        UnsearchedIsArgument(b);
      case While(c, b) =>
        UnsearchedCallIsArgument(c);
        UnsearchedIsArgument(b);
    }
  }

  /* ---- Whole functions ---- */

  /** The side exit does not search: there is more than one record, or none, or the frame is not the function's. */
  predicate GivesUp(a: Activation, records: nat) {
    records != 1 || |FrameOf(a)| != 2 + |a.decl.params| + |a.decl.decls| + |a.decl.boundVars|
  }

  /** What becomes of a function whose missed call is not found. */
  function Lost(w: World, a: Activation, records: nat, o: Outcome, retVal: Word): Result
    requires o.Missed?
  {
    if GivesUp(a, records) then Result(0, o.st, o.gas)
    else
      match Walk(w, NewsInBody(a.decl.body), o.st)
      case None => Crash
      case Some(st) => Result(retVal, st, o.gas)
  }

  /**
   After an exit from a call that the search does not look at the function ends
   where it left off, with the return value found in the context and one object for
   each `new` in its body.
   */
  lemma UnsearchedExitEndsFunction(w: World, a: Activation, records: nat, o: Outcome, retVal: Word)
    requires o.Missed? && o.id !in SearchedBody(a.decl.body)
    ensures Finish(w, a, records, FinalOf(a, o), retVal) == Lost(w, a, records, o, retVal)
  {
    if !GivesUp(a, records) {
      SearchBodyIsHarmless(w, Rebuild(w, a.decl, o.st, FrameOf(a)), a.decl.body, o.id, ExitOf(o, retVal));
    }
  }

  /** The same value and state, or both fail alike; the loop budget does not count. */
  predicate Alike(r: Result, r': Result) {
    if r.Result? && r'.Result? then r.v == r'.v && r.st == r'.st else r == r'
  }

  /**
   The exit is right exactly when there is nothing left to do: the run that goes on
   from the missed call, with what the interpreter holds there (`p`), ends in the
   state and with the return value in which the exit leaves the function.
   */
  lemma UnsearchedExitIsRightExactlyWhen(
    w: World, a: Activation, guards: Guards, sel: Word, args: seq<Word>, st: State, gas: nat, retVal: Word)
    returns (p: Point)
    requires |args| == |a.decl.params| && ProperlyBound(a) && CommonNames(a)
    requires var o := GuardedRun(w, a, guards, sel, args, st, gas); o.Missed? && o.id !in SearchedBody(a.decl.body)
    ensures var o := GuardedRun(w, a, guards, sel, args, st, gas);
            MissedAt(w, CompiledSymbols(a), guards, FocusBody(a.decl.body, p), ReceiverAt(p), o.id, o.st)
    ensures var o := GuardedRun(w, a, guards, sel, args, st, gas);
            var left := FinishBody(w, CompiledSymbols(a), a.decl.body, p, ExitOf(o, retVal));
            var exit := Lost(w, a, Records(CodeOf(a, guards)), o, retVal);
            && InterpretFunction(w, a, sel, args, st, gas, retVal) == FromRun(left)
            && (Alike(Finish(w, a, Records(CodeOf(a, guards)), FinalOf(a, o), retVal),
                      InterpretFunction(w, a, sel, args, st, gas, retVal))
                <==> if exit.Result? then left.Done? && left.c.st == exit.st && left.c.retVal == exit.v
                     else left == Crashed)
  {
    var s := CompiledSymbols(a);
    var o := GuardedRun(w, a, guards, sel, args, st, gas);
    UnsearchedExitEndsFunction(w, a, Records(CodeOf(a, guards)), o, retVal);
    var c := Ctx(EntryState(a, sel, args, st), retVal, false, false, gas);
    p := MissedBodyGoesOn(w, s, guards, a.decl.body, c, o.id, o.st, o.gas);
    InterpretedAsCompiled(a);
    InterpBodySame(w, InterpretedTable(a), s, a.decl.body, c);
  }

  /**
   So outside loops it is never right, whatever the function, the callees and the
   leftover return value: the missed call has yet to record in its profile the
   class on which it missed. In a loop it is right at most when interpretation goes
   on to make another pass.
   */
  lemma UnsearchedExitIsNeverRight(
    w: World, a: Activation, guards: Guards, sel: Word, args: seq<Word>, st: State, gas: nat, retVal: Word)
    requires |args| == |a.decl.params| && ProperlyBound(a) && CommonNames(a)
    requires var o := GuardedRun(w, a, guards, sel, args, st, gas);
             && o.Missed? && o.id !in SearchedBody(a.decl.body)
             && OnceBody(a.decl.body, o.id) && MissHere(w, guards, o.id, o.st)
             && Lost(w, a, Records(CodeOf(a, guards)), o, retVal).Result?
    ensures var o := GuardedRun(w, a, guards, sel, args, st, gas);
            var interpreted := InterpretFunction(w, a, sel, args, st, gas, retVal);
            Alike(Finish(w, a, Records(CodeOf(a, guards)), FinalOf(a, o), retVal), interpreted) ==>
              o.id in LoopSites(a.decl.body) && interpreted.Result? && interpreted.gas < o.gas
  {
    var o := GuardedRun(w, a, guards, sel, args, st, gas);
    var p := UnsearchedExitIsRightExactlyWhen(w, a, guards, sel, args, st, gas, retVal);
    WalkCreates(w, NewsInBody(a.decl.body), o.st);
    FinishBodyWentOn(w, CompiledSymbols(a), guards, a.decl.body, p, o.id, ExitOf(o, retVal));
  }

  /* ---- Receivers that cannot be computed again ---- */

  /**
   A callee that is neither a variable, nor a number, nor a `new` comes out of the
   search as null, so that the exit fails; it is right exactly when the missed call
   itself fails.
   */
  lemma LostReceiver(w: World, tab: Table, e: Expr, id: nat, obj: Word, c: Ctx)
    requires e.MethodCall? && e.site == id && !Atomic(e.callee) && !e.callee.NewObject?
    requires id !in SearchedExpr(e.callee) && !c.found && !c.isReturning
    ensures SkipExpr(w, tab, e, id, c) == SearchCrashed
    ensures SkipExpr(w, tab, e, id, c) == Continue(FinishExpr(w, tab, e, Due(obj), c.st), c.(found := true))
            <==> FinishExpr(w, tab, e, Due(obj), c.st) == EvalFault
  {
    SearchExprIsHarmless(w, tab, e.callee, id, c);
    SkipMethodCallUnfolds(w, tab, id, e.callee, e.selector, e.args, id, c);
    if SkipExpr(w, tab, e.callee, id, c).At? {
      NothingFound(w, tab, e.callee, id, c);
    }
  }

  lemma NothingFound(w: World, tab: Table, e: Expr, id: nat, c: Ctx)
    requires SkipExpr(w, tab, e, id, c).At? && !SkipExpr(w, tab, e, id, c).c.found
    requires !Atomic(e) && !e.NewObject?
    ensures SkipExpr(w, tab, e, id, c).v == 0
  {
  }

  /** A `new` in the place of the receiver is evaluated again: the call goes to another object. */
  lemma ReceiverIsCreatedAgain(w: World, tab: Table, e: Expr, id: nat, obj: Word, c: Ctx)
    requires e.MethodCall? && e.site == id && e.callee.NewObject? && !c.found && obj in c.st.heap
    ensures EvalNew(w, e.callee.cls, c.st).EvalFault? ==> SkipExpr(w, tab, e, id, c) == SearchCrashed
    ensures var q := EvalNew(w, e.callee.cls, c.st);
            q.Val? ==>
              && q.v != obj
              && SkipExpr(w, tab, e, id, c)
                 == Continue(FinishExpr(w, tab, e, Due(q.v), q.st), c.(st := q.st, found := true))
  {
    SkipMethodCallUnfolds(w, tab, id, e.callee, e.selector, e.args, id, c);
  }
}
