/**
 Interpreter runs stopped where they are about to perform a call, what the
 interpreter holds on its own stack at that moment, and the rest of the run.
 */
module Suspension {
  import opened Tagged
  import opened Ast
  import opened Runtime
  import opened Interpreter
  import opened SearchLemmas
  import opened Continuation

  /**
   The values held while a call inside an expression is due: the receiver of the
   call itself, left operands, and receivers and earlier arguments of the calls
   around it.
   */
  datatype Held =
    | Due(obj: Word)
    | OnLeft(inner: Held)
    | OnRight(lv: Word, inner: Held)
    | InCallee(inner: Held)
    | InArgument(obj: Word, vs: seq<Word>, inner: Held)

  /** Where in a body the call is due: in an expression of statement `index`, or further inside it. */
  datatype Point = InExpr(index: nat, held: Held) | Inside(index: nat, inner: Point)

  datatype ExprStop = Through(r: EvalResult) | Before(held: Held, st: State)

  datatype ArgsStop = ThroughAll(r: ArgsResult) | BeforeOne(vs: seq<Word>, held: Held, st: State)

  datatype BodyStop = Ran(r: Run) | Suspended(p: Point, c: Ctx)

  /* ---- Running up to a call ---- */

  /** Evaluation, stopped at the first performance of call `id` in a state that `stop` picks. */
  function StopExpr(w: World, tab: Table, e: Expr, id: nat, stop: State -> bool, st: State): ExprStop
    decreases e, 0
  {
    match e
    case Binary(op, l, r) =>
      (match StopExpr(w, tab, l, id, stop, st)
       case Before(h, s) => Before(OnLeft(h), s)
       case Through(EvalFault) => Through(EvalFault)
       case Through(Val(lv, st1)) => StopRight(op, lv, StopExpr(w, tab, r, id, stop, st1), w))
    case MethodCall(site, callee, sel, args) =>
      (match StopExpr(w, tab, callee, id, stop, st)
       case Before(h, s) => Before(InCallee(h), s)
       case Through(EvalFault) => Through(EvalFault)
       case Through(Val(obj, st1)) =>
         if site == id && stop(st1) then Before(Due(obj), st1)
         else if obj == 0 then Through(EvalFault)
         else StopCall(w, site, sel, obj, StopArgs(w, tab, args, id, stop, st1)))
    case ClosureCall(callee, args) =>
      (match StopExpr(w, tab, callee, id, stop, st)
       case Before(h, s) => Before(InCallee(h), s)
       case Through(EvalFault) => Through(EvalFault)
       case Through(Val(obj, st1)) =>
         if obj == 0 then Through(EvalFault) else StopClosureCall(w, obj, StopArgs(w, tab, args, id, stop, st1)))
    case _ => Through(EvalExpr(w, tab, e, st))
  }

  function StopArgs(w: World, tab: Table, args: seq<Expr>, id: nat, stop: State -> bool, st: State): ArgsStop
    decreases args, 0
  {
    if args == [] then ThroughAll(Vals([], st))
    else
      match StopExpr(w, tab, args[0], id, stop, st)
      case Before(h, s) => BeforeOne([], h, s)
      case Through(EvalFault) => ThroughAll(ArgsFault)
      case Through(Val(v, st1)) =>
        match StopArgs(w, tab, args[1..], id, stop, st1)
        case BeforeOne(vs, h, s) => BeforeOne([v] + vs, h, s)
        case ThroughAll(r) => ThroughAll(Prefixed([v], r))
  }

  function StopRight(op: BinOp, lv: Word, q: ExprStop, w: World): ExprStop {
    match q
    case Before(h, s) => Before(OnRight(lv, h), s)
    case Through(EvalFault) => Through(EvalFault)
    case Through(Val(rv, st)) => Through(PerformOp(w, op, lv, rv, st))
  }

  function StopCall(w: World, site: nat, sel: string, obj: Word, q: ArgsStop): ExprStop {
    match q
    case BeforeOne(vs, h, s) => Before(InArgument(obj, vs, h), s)
    case ThroughAll(ArgsFault) => Through(EvalFault)
    case ThroughAll(Vals(vs, st)) => Through(Dispatch(w, site, sel, obj, vs, st))
  }

  function StopClosureCall(w: World, obj: Word, q: ArgsStop): ExprStop {
    match q
    case BeforeOne(vs, h, s) => Before(InArgument(obj, vs, h), s)
    case ThroughAll(ArgsFault) => Through(EvalFault)
    case ThroughAll(Vals(vs, st)) => Through(FromCall(w.closure(st, obj, vs)))
  }

  function StopBody(w: World, tab: Table, ss: seq<Stmt>, id: nat, stop: State -> bool, c: Ctx): (q: BodyStop)
    ensures q.Ran? && q.r.Done? ==> q.r.c.gas <= c.gas
    decreases c.gas, ss, 0
  {
    if ss == [] || c.isReturning then Ran(Done(c))
    else
      match StopStmt(w, tab, ss[0], id, stop, c)
      case Suspended(p, c1) => Suspended(p, c1)
      case Ran(Done(c1)) => Later(StopBody(w, tab, ss[1..], id, stop, c1))
      case Ran(r) => Ran(r)
  }

  /** A point in the statements after the first one. */
  function Later(q: BodyStop): BodyStop {
    match q
    case Suspended(InExpr(i, h), c) => Suspended(InExpr(i + 1, h), c)
    case Suspended(Inside(i, p), c) => Suspended(Inside(i + 1, p), c)
    case _ => q
  }

  function StopStmt(w: World, tab: Table, s: Stmt, id: nat, stop: State -> bool, c: Ctx): (q: BodyStop)
    ensures q.Ran? && q.r.Done? ==> q.r.c.gas <= c.gas
    decreases c.gas, s, 1
  {
    match s
    case Decl(x, None) => Ran(Done(c.(st := SetSymbol(tab, c.st, x, 0))))
    case Decl(x, Some(e)) => StopThen(w, tab, s, StopExpr(w, tab, e, id, stop, c.st), c)
    case Assign(x, e) => StopThen(w, tab, s, StopExpr(w, tab, e, id, stop, c.st), c)
    case Return(e) => StopThen(w, tab, s, StopExpr(w, tab, e, id, stop, c.st), c)
    case Evaluate(e) => StopThen(w, tab, s, StopExpr(w, tab, e, id, stop, c.st), c)
    case If(cond, body) =>
      (match StopExpr(w, tab, cond, id, stop, c.st)
       case Before(h, st) => Suspended(InExpr(0, h), c.(st := st))
       case Through(EvalFault) => Ran(Crashed)
       case Through(Val(v, st)) =>
         if Truthy(v) then Within(StopBody(w, tab, body, id, stop, c.(st := st))) else Ran(Done(c.(st := st))))
    case While(cond, body) => StopLoop(w, tab, cond, body, id, stop, c)
  }

  /** A point in the nested body of the first statement. */
  function Within(q: BodyStop): BodyStop {
    match q
    case Suspended(p, c) => Suspended(Inside(0, p), c)
    case _ => q
  }

  function StopThen(w: World, tab: Table, s: Stmt, q: ExprStop, c: Ctx): BodyStop {
    match q
    case Before(h, st) => Suspended(InExpr(0, h), c.(st := st))
    case Through(r) => Ran(WithValue(tab, s, r, c))
  }

  /** What a statement with one expression and no body does with its value. */
  function WithValue(tab: Table, s: Stmt, r: EvalResult, c: Ctx): Run {
    match r
    case EvalFault => Crashed
    case Val(v, st) =>
      match s
      case Decl(x, _) => Done(c.(st := SetSymbol(tab, st, x, v)))
      case Assign(x, _) => Done(c.(st := SetSymbol(tab, st, x, v)))
      case Return(_) => Done(c.(st := st, retVal := v, isReturning := true))
      case _ => Done(c.(st := st))
  }

  function StopLoop(
    w: World, tab: Table, cond: Expr, body: seq<Stmt>, id: nat, stop: State -> bool, c: Ctx): (q: BodyStop)
    ensures q.Ran? && q.r.Done? ==> q.r.c.gas <= c.gas
    decreases c.gas, body, 1
  {
    if c.isReturning then Ran(Done(c))
    else
      match StopExpr(w, tab, cond, id, stop, c.st)
      case Before(h, st) => Suspended(InExpr(0, h), c.(st := st))
      case Through(EvalFault) => Ran(Crashed)
      case Through(Val(v, st)) =>
        if !Truthy(v) then Ran(Done(c.(st := st)))
        else if c.gas == 0 then Ran(OutOfGas)
        else
          match StopBody(w, tab, body, id, stop, c.(st := st, gas := c.gas - 1))
          case Ran(Done(c1)) => StopLoop(w, tab, cond, body, id, stop, c1)
          case q => Within(q)
  }

  /* ---- The rest of the run ---- */

  /**
   The expression from the due call on, with what the interpreter holds. Around a
   null receiver it fails: the interpreter has failed before, and only compiled
   code comes to the arguments.
   */
  function FinishExpr(w: World, tab: Table, e: Expr, h: Held, st: State): EvalResult
    decreases e
  {
    match (e, h)
    case (Binary(op, l, r), OnLeft(h1)) =>
      (match FinishExpr(w, tab, l, h1, st)
       case EvalFault => EvalFault
       case Val(lv, st1) =>
         match EvalExpr(w, tab, r, st1)
         case EvalFault => EvalFault
         case Val(rv, st2) => PerformOp(w, op, lv, rv, st2))
    case (Binary(op, l, r), OnRight(lv, h1)) =>
      (match FinishExpr(w, tab, r, h1, st)
       case EvalFault => EvalFault
       case Val(rv, st1) => PerformOp(w, op, lv, rv, st1))
    case (MethodCall(site, _, sel, args), Due(obj)) => CallMethod(w, tab, site, sel, args, obj, st)
    case (MethodCall(site, callee, sel, args), InCallee(h1)) =>
      (match FinishExpr(w, tab, callee, h1, st)
       case EvalFault => EvalFault
       case Val(obj, st1) => CallMethod(w, tab, site, sel, args, obj, st1))
    case (MethodCall(site, _, sel, args), InArgument(obj, vs, h1)) =>
      if obj == 0 then EvalFault
      else
        (match FinishArgs(w, tab, args, vs, h1, st)
         case ArgsFault => EvalFault
         case Vals(ws, st1) => Dispatch(w, site, sel, obj, ws, st1))
    case (ClosureCall(callee, args), InCallee(h1)) =>
      (match FinishExpr(w, tab, callee, h1, st)
       case EvalFault => EvalFault
       case Val(obj, st1) => CallClosure(w, tab, args, obj, st1))
    case (ClosureCall(_, args), InArgument(obj, vs, h1)) =>
      if obj == 0 then EvalFault
      else
        (match FinishArgs(w, tab, args, vs, h1, st)
         case ArgsFault => EvalFault
         case Vals(ws, st1) => FromCall(w.closure(st1, obj, ws)))
    case _ => EvalFault
  }

  /** The arguments from the one with the due call on; `vs` are those before it. */
  function FinishArgs(w: World, tab: Table, args: seq<Expr>, vs: seq<Word>, h: Held, st: State): ArgsResult
    decreases args
  {
    if args == [] then ArgsFault
    else if vs != [] then Prefixed([vs[0]], FinishArgs(w, tab, args[1..], vs[1..], h, st))
    else
      match FinishExpr(w, tab, args[0], h, st)
      case EvalFault => ArgsFault
      case Val(v, st1) => Prefixed([v], EvalArgs(w, tab, args[1..], st1))
  }

  /** The body from the due call on. */
  function FinishBody(w: World, tab: Table, ss: seq<Stmt>, p: Point, c: Ctx): Run
    decreases ss
  {
    if ss == [] then Crashed
    else if p.index > 0 then FinishBody(w, tab, ss[1..], p.(index := p.index - 1), c)
    else
      match FinishStmt(w, tab, ss[0], p, c)
      case Done(c1) => InterpBody(w, tab, ss[1..], c1)
      case r => r
  }

  function FinishStmt(w: World, tab: Table, s: Stmt, p: Point, c: Ctx): Run
    decreases s
  {
    match (s, p)
    case (If(cond, body), InExpr(_, h)) =>
      (match FinishExpr(w, tab, cond, h, c.st)
       case EvalFault => Crashed
       case Val(v, st) => if Truthy(v) then InterpBody(w, tab, body, c.(st := st)) else Done(c.(st := st)))
    case (While(cond, body), InExpr(_, h)) =>
      LoopTested(w, tab, cond, body, FinishExpr(w, tab, cond, h, c.st), c)
    case (If(_, body), Inside(_, p1)) => FinishBody(w, tab, body, p1, c)
    case (While(cond, body), Inside(_, p1)) =>
      (match FinishBody(w, tab, body, p1, c)
       case Done(c1) => InterpLoop(w, tab, cond, body, c1)
       case r => r)
    case (Decl(_, Some(e)), InExpr(_, h)) => WithValue(tab, s, FinishExpr(w, tab, e, h, c.st), c)
    case (Assign(_, e), InExpr(_, h)) => WithValue(tab, s, FinishExpr(w, tab, e, h, c.st), c)
    case (Return(e), InExpr(_, h)) => WithValue(tab, s, FinishExpr(w, tab, e, h, c.st), c)
    case (Evaluate(e), InExpr(_, h)) => WithValue(tab, s, FinishExpr(w, tab, e, h, c.st), c)
    case _ => Crashed
  }

  /* ---- The call that is due ---- */

  /** The call expression that the held values belong to. */
  function Focus(e: Expr, h: Held): Option<Expr>
    decreases e
  {
    match (e, h)
    case (Binary(_, l, _), OnLeft(h1)) => Focus(l, h1)
    case (Binary(_, _, r), OnRight(_, h1)) => Focus(r, h1)
    case (MethodCall(_, _, _, _), Due(_)) => Some(e)
    case (MethodCall(_, callee, _, _), InCallee(h1)) => Focus(callee, h1)
    case (MethodCall(_, _, _, args), InArgument(_, vs, h1)) => FocusArgs(args, vs, h1)
    case (ClosureCall(callee, _), InCallee(h1)) => Focus(callee, h1)
    case (ClosureCall(_, args), InArgument(_, vs, h1)) => FocusArgs(args, vs, h1)
    case _ => None
  }

  function FocusArgs(args: seq<Expr>, vs: seq<Word>, h: Held): Option<Expr>
    decreases args
  {
    if args == [] then None
    else if vs != [] then FocusArgs(args[1..], vs[1..], h)
    else Focus(args[0], h)
  }

  function FocusBody(ss: seq<Stmt>, p: Point): Option<Expr>
    decreases ss
  {
    if ss == [] then None
    else if p.index > 0 then FocusBody(ss[1..], p.(index := p.index - 1))
    else FocusStmt(ss[0], p)
  }

  function FocusStmt(s: Stmt, p: Point): Option<Expr>
    decreases s
  {
    match (s, p)
    case (If(cond, _), InExpr(_, h)) => Focus(cond, h)
    case (While(cond, _), InExpr(_, h)) => Focus(cond, h)
    case (If(_, body), Inside(_, p1)) => FocusBody(body, p1)
    case (While(_, body), Inside(_, p1)) => FocusBody(body, p1)
    case (Decl(_, Some(e)), InExpr(_, h)) => Focus(e, h)
    case (Assign(_, e), InExpr(_, h)) => Focus(e, h)
    case (Return(e), InExpr(_, h)) => Focus(e, h)
    case (Evaluate(e), InExpr(_, h)) => Focus(e, h)
    case _ => None
  }

  function Receiver(h: Held): Word {
    match h
    case Due(obj) => obj
    case OnLeft(h1) => Receiver(h1)
    case OnRight(_, h1) => Receiver(h1)
    case InCallee(h1) => Receiver(h1)
    case InArgument(_, _, h1) => Receiver(h1)
  }

  function ReceiverAt(p: Point): Word {
    match p
    case InExpr(_, h) => Receiver(h)
    case Inside(_, p1) => ReceiverAt(p1)
  }

  /** Call `id` is due on `obj`, the value that a variable or a number in its callee has in the state. */
  predicate IsDue(w: World, tab: Table, call: Option<Expr>, obj: Word, id: nat, st: State) {
    && call.Some? && call.value.MethodCall? && call.value.site == id
    && (Atomic(call.value.callee) ==> EvalExpr(w, tab, call.value.callee, st) == Val(obj, st))
  }

  /* ---- A stopped run and its rest are the run ---- */

  /** What stopping promises about an expression. */
  ghost predicate ExprSplits(w: World, tab: Table, e: Expr, id: nat, stop: State -> bool, st: State) {
    match StopExpr(w, tab, e, id, stop, st)
    case Through(r) => r == EvalExpr(w, tab, e, st)
    case Before(h, s) =>
      stop(s) && IsDue(w, tab, Focus(e, h), Receiver(h), id, s)
      && EvalExpr(w, tab, e, st) == FinishExpr(w, tab, e, h, s)
  }

  ghost predicate ArgsSplit(w: World, tab: Table, args: seq<Expr>, id: nat, stop: State -> bool, st: State) {
    match StopArgs(w, tab, args, id, stop, st)
    case ThroughAll(r) => r == EvalArgs(w, tab, args, st)
    case BeforeOne(vs, h, s) =>
      stop(s) && IsDue(w, tab, FocusArgs(args, vs, h), Receiver(h), id, s)
      && EvalArgs(w, tab, args, st) == FinishArgs(w, tab, args, vs, h, s)
  }

  lemma {:induction false} StoppedExprGoesOn(
    w: World, tab: Table, e: Expr, id: nat, stop: State -> bool, st: State)
    ensures ExprSplits(w, tab, e, id, stop, st)
    decreases e, 1
  {
    match e
    case Binary(_, l, r) =>
      StoppedExprGoesOn(w, tab, l, id, stop, st);
      var q := StopExpr(w, tab, l, id, stop, st);
      if q.Through? && q.r.Val? {
        StoppedExprGoesOn(w, tab, r, id, stop, q.r.st);
      }
    case MethodCall(_, callee, _, args) =>
      StoppedExprGoesOn(w, tab, callee, id, stop, st);
      var q := StopExpr(w, tab, callee, id, stop, st);
      if q.Through? && q.r.Val? {
        StoppedArgsGoOn(w, tab, args, id, stop, q.r.st);
      }
    case ClosureCall(callee, args) =>
      StoppedExprGoesOn(w, tab, callee, id, stop, st);
      var q := StopExpr(w, tab, callee, id, stop, st);
      if q.Through? && q.r.Val? {
        StoppedArgsGoOn(w, tab, args, id, stop, q.r.st);
      }
    case _ =>
  }

  lemma {:induction false} StoppedArgsGoOn(
    w: World, tab: Table, args: seq<Expr>, id: nat, stop: State -> bool, st: State)
    ensures ArgsSplit(w, tab, args, id, stop, st)
    decreases args, 0
  {
    if args != [] {
      StoppedExprGoesOn(w, tab, args[0], id, stop, st);
      var q := StopExpr(w, tab, args[0], id, stop, st);
      if q.Through? && q.r.Val? {
        StoppedArgsGoOn(w, tab, args[1..], id, stop, q.r.st);
        var rest := StopArgs(w, tab, args[1..], id, stop, q.r.st);
        if rest.BeforeOne? {
          assert ([q.r.v] + rest.vs)[1..] == rest.vs;
        }
      }
    }
  }

  /** A run that does not return leaves the context's flags and return value alone. */
  predicate KeepsFlags(c: Ctx, r: Run) {
    r.Done? && !r.c.isReturning ==> r.c == c.(st := r.c.st, gas := r.c.gas)
  }

  lemma {:induction false} StmtKeepsFlags(w: World, tab: Table, s: Stmt, c: Ctx)
    requires !c.isReturning
    ensures KeepsFlags(c, InterpStmt(w, tab, s, c))
    decreases c.gas, s, 1
  {
    match s
    case If(cond, body) =>
      var q := EvalExpr(w, tab, cond, c.st);
      if q.Val? {
        BodyKeepsFlags(w, tab, body, c.(st := q.st));
      }
    case While(cond, body) => LoopKeepsFlags(w, tab, cond, body, c);
    case _ =>
  }

  lemma {:induction false} BodyKeepsFlags(w: World, tab: Table, ss: seq<Stmt>, c: Ctx)
    ensures KeepsFlags(c, InterpBody(w, tab, ss, c))
    decreases c.gas, ss, 0
  {
    if ss != [] && !c.isReturning {
      StmtKeepsFlags(w, tab, ss[0], c);
      var r := InterpStmt(w, tab, ss[0], c);
      if r.Done? {
        BodyKeepsFlags(w, tab, ss[1..], r.c);
      }
    }
  }

  lemma {:induction false} LoopKeepsFlags(w: World, tab: Table, cond: Expr, body: seq<Stmt>, c: Ctx)
    ensures KeepsFlags(c, InterpLoop(w, tab, cond, body, c))
    decreases c.gas, body, 1
  {
    var q := EvalExpr(w, tab, cond, c.st);
    if !c.isReturning && q.Val? && Truthy(q.v) && c.gas > 0 {
      var c0 := c.(st := q.st, gas := c.gas - 1);
      BodyKeepsFlags(w, tab, body, c0);
      var r := InterpBody(w, tab, body, c0);
      if r.Done? {
        LoopKeepsFlags(w, tab, cond, body, r.c);
      }
    }
  }

  /** The stopped run is at call `id`, in a state that was picked, and has changed nothing but state and gas. */
  ghost predicate StoppedAt(
    w: World, tab: Table, c: Ctx, c1: Ctx, call: Option<Expr>, obj: Word, id: nat, stop: State -> bool)
  {
    stop(c1.st) && IsDue(w, tab, call, obj, id, c1.st) && c1 == c.(st := c1.st, gas := c1.gas) && c1.gas <= c.gas
  }

  ghost predicate BodySplits(w: World, tab: Table, ss: seq<Stmt>, id: nat, stop: State -> bool, c: Ctx, q: BodyStop) {
    match q
    case Ran(r) => r == InterpBody(w, tab, ss, c)
    case Suspended(p, c1) =>
      && StoppedAt(w, tab, c, c1, FocusBody(ss, p), ReceiverAt(p), id, stop)
      && InterpBody(w, tab, ss, c) == FinishBody(w, tab, ss, p, c1)
  }

  ghost predicate StmtSplits(w: World, tab: Table, s: Stmt, id: nat, stop: State -> bool, c: Ctx, q: BodyStop) {
    match q
    case Ran(r) => r == InterpStmt(w, tab, s, c)
    case Suspended(p, c1) =>
      && p.index == 0 && StoppedAt(w, tab, c, c1, FocusStmt(s, p), ReceiverAt(p), id, stop)
      && InterpStmt(w, tab, s, c) == FinishStmt(w, tab, s, p, c1)
  }

  lemma {:induction false} StoppedStmtGoesOn(w: World, tab: Table, s: Stmt, id: nat, stop: State -> bool, c: Ctx)
    requires !c.isReturning
    ensures StmtSplits(w, tab, s, id, stop, c, StopStmt(w, tab, s, id, stop, c))
    decreases c.gas, s, 1
  {
    match s
    case Decl(_, None) =>
    case Decl(_, Some(e)) => StoppedExprGoesOn(w, tab, e, id, stop, c.st);
    case Assign(_, e) => StoppedExprGoesOn(w, tab, e, id, stop, c.st);
    case Return(e) => StoppedExprGoesOn(w, tab, e, id, stop, c.st);
    case Evaluate(e) => StoppedExprGoesOn(w, tab, e, id, stop, c.st);
    case If(cond, body) =>
      StoppedExprGoesOn(w, tab, cond, id, stop, c.st);
      var q := StopExpr(w, tab, cond, id, stop, c.st);
      if q.Through? && q.r.Val? {
        StoppedBodyGoesOn(w, tab, body, id, stop, c.(st := q.r.st));
      }
    case While(_, _) => StoppedLoopGoesOn(w, tab, s, id, stop, c);
  }

  lemma {:induction false} StoppedLoopGoesOn(w: World, tab: Table, s: Stmt, id: nat, stop: State -> bool, c: Ctx)
    requires s.While? && !c.isReturning
    ensures StmtSplits(w, tab, s, id, stop, c, StopLoop(w, tab, s.cond, s.body, id, stop, c))
    decreases c.gas, s, 0
  {
    StoppedExprGoesOn(w, tab, s.cond, id, stop, c.st);
    LoopUnfolds(w, tab, s.cond, s.body, EvalExpr(w, tab, s.cond, c.st), c);
    var q := StopExpr(w, tab, s.cond, id, stop, c.st);
    if q.Through? && q.r.Val? && Truthy(q.r.v) && c.gas > 0 {
      var c0 := c.(st := q.r.st, gas := c.gas - 1);
      StoppedBodyGoesOn(w, tab, s.body, id, stop, c0);
      var b := StopBody(w, tab, s.body, id, stop, c0);
      BodyKeepsFlags(w, tab, s.body, c0);
      if b.Ran? && b.r.Done? && !b.r.c.isReturning {
        StoppedLoopGoesOn(w, tab, s, id, stop, b.r.c);
      }
    }
  }

  /**
   A body interpreted up to any performance of any call, and finished from there
   with what the interpreter holds, is the body interpreted at once.
   */
  lemma {:induction false} StoppedBodyGoesOn(
    w: World, tab: Table, ss: seq<Stmt>, id: nat, stop: State -> bool, c: Ctx)
    ensures BodySplits(w, tab, ss, id, stop, c, StopBody(w, tab, ss, id, stop, c))
    decreases c.gas, ss, 0
  {
    if ss != [] && !c.isReturning {
      StoppedStmtGoesOn(w, tab, ss[0], id, stop, c);
      var q := StopStmt(w, tab, ss[0], id, stop, c);
      StmtKeepsFlags(w, tab, ss[0], c);
      if q.Ran? && q.r.Done? {
        StoppedBodyGoesOn(w, tab, ss[1..], id, stop, q.r.c);
      }
    }
  }

  /* ---- Resumable calls ---- */

  predicate IsSite(call: Option<Expr>, id: nat) {
    call.Some? && call.value.MethodCall? && call.value.site == id
  }

  lemma {:induction false} FocusIsExecuted(e: Expr, h: Held, id: nat)
    requires IsSite(Focus(e, h), id)
    ensures id in ExprSites(e)
    decreases e, 1
  {
    match (e, h)
    case (Binary(_, l, _), OnLeft(h1)) => FocusIsExecuted(l, h1, id);
    case (Binary(_, _, r), OnRight(_, h1)) => FocusIsExecuted(r, h1, id);
    case (MethodCall(_, callee, _, _), InCallee(h1)) => FocusIsExecuted(callee, h1, id);
    case (MethodCall(_, _, _, args), InArgument(_, vs, h1)) => FocusIsInArgs(args, vs, h1, id);
    case (ClosureCall(callee, _), InCallee(h1)) => FocusIsExecuted(callee, h1, id);
    case (ClosureCall(_, args), InArgument(_, vs, h1)) => FocusIsInArgs(args, vs, h1, id);
    case _ =>
  }

  lemma {:induction false} FocusIsInArgs(args: seq<Expr>, vs: seq<Word>, h: Held, id: nat)
    requires IsSite(FocusArgs(args, vs, h), id)
    ensures id in ArgsSites(args)
    decreases args, 0
  {
    if vs != [] {
      FocusIsInArgs(args[1..], vs[1..], h, id);
    } else {
      FocusIsExecuted(args[0], h, id);
    }
  }

  lemma {:induction false} FocusIsInBody(ss: seq<Stmt>, p: Point, id: nat)
    requires IsSite(FocusBody(ss, p), id)
    ensures id in BodySites(ss)
    decreases ss, 0
  {
    if p.index > 0 {
      FocusIsInBody(ss[1..], p.(index := p.index - 1), id);
    } else {
      FocusIsInStmt(ss[0], p, id);
    }
  }

  lemma {:induction false} FocusIsInStmt(s: Stmt, p: Point, id: nat)
    requires IsSite(FocusStmt(s, p), id)
    ensures id in StmtSites(s)
    decreases s, 1
  {
    match (s, p)
    case (If(_, body), Inside(_, p1)) => FocusIsInBody(body, p1, id);
    case (While(_, body), Inside(_, p1)) => FocusIsInBody(body, p1, id);
    case (If(cond, _), InExpr(_, h)) => FocusIsExecuted(cond, h, id);
    case (While(cond, _), InExpr(_, h)) => FocusIsExecuted(cond, h, id);
    case (Decl(_, Some(e)), InExpr(_, h)) => FocusIsExecuted(e, h, id);
    case (Assign(_, e), InExpr(_, h)) => FocusIsExecuted(e, h, id);
    case (Return(e), InExpr(_, h)) => FocusIsExecuted(e, h, id);
    case (Evaluate(e), InExpr(_, h)) => FocusIsExecuted(e, h, id);
    case _ =>
  }

  /** At a resumable call the held values can be computed again. */
  lemma {:induction false} FinishIsRestExpr(w: World, tab: Table, e: Expr, h: Held, id: nat, st: State)
    requires ResumableExpr(e, id) && IsDue(w, tab, Focus(e, h), Receiver(h), id, st)
    ensures FinishExpr(w, tab, e, h, st) == RestExpr(w, tab, e, id, st)
    decreases e, 1
  {
    FocusIsExecuted(e, h, id);
    match e
    case Binary(_, l, r) =>
      match h {
        case OnLeft(h1) => FinishIsRestExpr(w, tab, l, h1, id, st);
        case OnRight(_, h1) => FocusIsExecuted(r, h1, id);
        case _ =>
      }
    case MethodCall(_, _, _, _) => FinishIsRestCall(w, tab, e, h, id, st);
    case ClosureCall(callee, args) =>
      match h {
        case InCallee(h1) => FinishIsRestExpr(w, tab, callee, h1, id, st);
        case InArgument(_, vs, h1) => FocusIsInArgs(args, vs, h1, id);
        case _ =>
      }
    case _ =>
  }

  lemma {:induction false} FinishIsRestCall(w: World, tab: Table, e: Expr, h: Held, id: nat, st: State)
    requires e.MethodCall? && ResumableExpr(e, id) && IsDue(w, tab, Focus(e, h), Receiver(h), id, st)
    ensures FinishExpr(w, tab, e, h, st) == RestExpr(w, tab, e, id, st)
    decreases e, 0
  {
    match h
    case InCallee(h1) =>
      FocusIsExecuted(e.callee, h1, id);
      FinishIsRestExpr(w, tab, e.callee, h1, id, st);
    case InArgument(_, vs, h1) => FocusIsInArgs(e.args, vs, h1, id);
    case _ =>
  }

  lemma {:induction false} FinishIsRestStmt(w: World, tab: Table, s: Stmt, p: Point, id: nat, c: Ctx)
    requires ResumableStmt(s, id) && IsDue(w, tab, FocusStmt(s, p), ReceiverAt(p), id, c.st)
    ensures FinishStmt(w, tab, s, p, c) == RestStmt(w, tab, s, id, c)
    decreases s, 1
  {
    match (s, p)
    case (If(_, body), Inside(_, p1)) => FinishIsRest(w, tab, body, p1, id, c);
    case (While(_, body), Inside(_, p1)) => FinishIsRest(w, tab, body, p1, id, c);
    case (If(cond, _), InExpr(_, h)) => FocusIsExecuted(cond, h, id);
    case (While(cond, _), InExpr(_, h)) => FocusIsExecuted(cond, h, id);
    case (Decl(_, Some(e)), InExpr(_, h)) => FinishIsRestExpr(w, tab, e, h, id, c.st);
    case (Assign(_, e), InExpr(_, h)) => FinishIsRestExpr(w, tab, e, h, id, c.st);
    case (Return(e), InExpr(_, h)) => FinishIsRestExpr(w, tab, e, h, id, c.st);
    case (Evaluate(e), InExpr(_, h)) => FinishIsRestExpr(w, tab, e, h, id, c.st);
    case _ =>
  }

  /** And the rest of the body needs nothing but the state. */
  lemma {:induction false} FinishIsRest(w: World, tab: Table, ss: seq<Stmt>, p: Point, id: nat, c: Ctx)
    requires ResumableBody(ss, id) && IsDue(w, tab, FocusBody(ss, p), ReceiverAt(p), id, c.st)
    ensures FinishBody(w, tab, ss, p, c) == RestBody(w, tab, ss, id, c)
    decreases ss, 0
  {
    if p.index > 0 {
      FocusIsInBody(ss[1..], p.(index := p.index - 1), id);
      FinishIsRest(w, tab, ss[1..], p.(index := p.index - 1), id, c);
    } else {
      FocusIsInStmt(ss[0], p, id);
      FinishIsRestStmt(w, tab, ss[0], p, id, c);
    }
  }

  /**
   Resuming is continuing, from any store in which an interpreter run is about to
   perform a resumable call, whatever the run has done before: the search finishes
   the body as the run itself would, after the creation of one object for each
   `new` on its way.
   */
  lemma ResumingIsContinuing(w: World, tab: Table, ss: seq<Stmt>, id: nat, stop: State -> bool, c: Ctx)
    requires ResumableBody(ss, id) && !c.isReturning && !c.found
    requires StopBody(w, tab, ss, id, stop, c).Suspended?
    ensures var c1 := StopBody(w, tab, ss, id, stop, c).c;
            && InterpBody(w, tab, ss, c) == RestBody(w, tab, ss, id, c1)
            && SkipBody(w, tab, ss, id, c1) == RestBodyAfter(w, tab, ss, id, c1, Walk(w, NewsBefore(ss, id), c1.st))
            && (NewsBefore(ss, id) == [] ==>
                  SkipBody(w, tab, ss, id, c1) == WithFound(InterpBody(w, tab, ss, c), true))
  {
    var q := StopBody(w, tab, ss, id, stop, c);
    StoppedBodyGoesOn(w, tab, ss, id, stop, c);
    FinishIsRest(w, tab, ss, q.p, id, q.c);
    SearchResumesBody(w, tab, ss, id, q.c);
  }
}
