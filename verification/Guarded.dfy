/**
 The guarded run of a body: what compiled code does, statement by statement.
 Each method call is protected by a class guard; when the guard fails the run
 stops with `Missed`. The run stops with `Parted` at the first step on which
 compiled code and the interpreter are not the same:
  - a comparison on which the whole-word and the shifted test differ;
  - arithmetic with an integer on the left and anything else on the right;
  - a class guard that loads a class pointer from something that is no object,
    or that is passed without a usable cached method, or at a site whose profile
    has changed since compilation;
  - a declaration without initialiser of a variable that is not null;
  - a closure literal with bound variables;
  - a failing guard behind arguments whose evaluation changed the state, because
    resuming evaluates them again.
 */
module Guarded {
  import opened Tagged
  import opened Ast
  import opened Runtime
  import opened Interpreter

  /** The class and the method slot that compilation fixes for a call site. */
  datatype Baked = Baked(assumed: Word, cached: nat)

  type Guards = map<nat, Baked>

  datatype ExprOutcome = Value(v: Word, st: State) | Miss(id: nat, st: State) | ExprFault | ExprParted

  datatype ArgsOutcome = Values(vs: seq<Word>, st: State) | ArgsMiss(id: nat, st: State) | ArgsFaulted | ArgsParted

  datatype Outcome =
    | Normal(st: State, gas: nat)
    | Returned(v: Word, st: State, gas: nat)
    | Missed(id: nat, st: State, gas: nat)
    | Faulted
    | Exhausted
    | Parted

  function GuardOf(guards: Guards, id: nat): Baked {
    if id in guards then guards[id] else Baked(0, 0)
  }

  /** The profile of a site is still what compilation fixed, so that the interpreter calls what compiled code does. */
  predicate Unmoved(s: Site, b: Baked) {
    s.assumed == b.assumed && s.cached == b.cached
  }

  /* ---- The guard ---- */

  datatype GuardResult = Hit | Fail | Undefined

  /** Null fails; the integer guard tests the tag; the class guard compares the first word of the object. */
  function TestGuard(b: Baked, heap: Heap, obj: Word): GuardResult {
    if obj == 0 then Fail
    else if b.assumed == SMALL_INT_CLASS then
      if Tag(obj) != 0 then Hit else Fail
    else if obj in heap && heap[obj] != [] then
      if heap[obj][0] == b.assumed then Hit else Fail
    else Undefined
  }

  /** A guard is sound on a receiver when passing it means the interpreter would call through the cache too. */
  predicate SoundGuard(b: Baked, heap: Heap, obj: Word) {
    match TestGuard(b, heap, obj)
    case Hit => b.cached != 0 && ClassOf(heap, obj) == b.assumed
    case Fail => true
    case Undefined => false
  }

  /* ---- Expressions ---- */

  function ExecExpr(w: World, tab: Table, guards: Guards, e: Expr, st: State): ExprOutcome
    decreases e, 0
  {
    match e
    case Number(n) => Value(Encode(n), st)
    case VarRef(x) => Value(LookupSymbol(tab, st, x), st)
    case Binary(op, l, r) =>
      (match ExecExpr(w, tab, guards, l, st)
       case Value(lv, st1) =>
         (match ExecExpr(w, tab, guards, r, st1)
          case Value(rv, st2) => ExecOp(w, op, lv, rv, st2)
          case o => o)
       case o => o)
    case MethodCall(site, callee, sel, args) =>
      (match ExecExpr(w, tab, guards, callee, st)
       case Value(obj, st1) =>
         (match ExecArgs(w, tab, guards, args, st1)
          case Values(vs, st2) => ExecGuarded(w, guards, site, sel, obj, vs, st1, st2)
          case ArgsMiss(id, st2) => Miss(id, st2)
          case ArgsFaulted => ExprFault
          case ArgsParted => ExprParted)
       case o => o)
    case ClosureCall(callee, args) =>
      (match ExecExpr(w, tab, guards, callee, st)
       case Value(obj, st1) =>
         (match ExecArgs(w, tab, guards, args, st1)
          case Values(vs, st2) => if obj == 0 then ExprFault else FromEval(FromCall(w.closure(st2, obj, vs)))
          case ArgsMiss(id, st2) => Miss(id, st2)
          case ArgsFaulted => ExprFault
          case ArgsParted => ExprParted)
       case o => o)
    case NewObject(cls) => FromEval(EvalNew(w, cls, st))
    case ClosureLiteral(c) =>
      if c.boundVars == [] then FromEval(EvalClosure(w, tab, c, st)) else ExprParted
  }

  function ExecArgs(w: World, tab: Table, guards: Guards, args: seq<Expr>, st: State): ArgsOutcome
    decreases args, 0
  {
    if args == [] then Values([], st)
    else
      match ExecExpr(w, tab, guards, args[0], st)
      case Miss(id, st1) => ArgsMiss(id, st1)
      case ExprFault => ArgsFaulted
      case ExprParted => ArgsParted
      case Value(v, st1) =>
        match ExecArgs(w, tab, guards, args[1..], st1)
        case Values(vs, st2) => Values([v] + vs, st2)
        case o => o
  }

  function FromEval(r: EvalResult): ExprOutcome {
    match r
    case Val(v, st) => Value(v, st)
    case EvalFault => ExprFault
  }

  function ExecOp(w: World, op: BinOp, l: Word, r: Word, st: State): ExprOutcome {
    match op
    case Comparison(c) =>
      if WordCompare(c, l, r) == ShiftedCompare(c, l, r) then Value(Bool(WordCompare(c, l, r)), st)
      else ExprParted
    case Arithmetic(a) =>
      if !IsInteger(l) then FromEval(FromCall(w.overload(a, st, l, r)))
      else if IsInteger(r) then FromEval(FromChecked(TaggedArith(a, l, r), st))
      else ExprParted
  }

  /**
   The guard, then on a hit the counter reset and the call through the
   compiled-in slot. `before` is the state before the arguments were evaluated.
   */
  function ExecGuarded(
    w: World, guards: Guards, site: nat, sel: string, obj: Word, vs: seq<Word>, before: State, st: State)
    : ExprOutcome
  {
    var b := GuardOf(guards, site);
    if !SoundGuard(b, st.heap, obj) || site !in guards then ExprParted
    else if TestGuard(b, st.heap, obj).Hit? then
      if Unmoved(SiteOf(st, site), b) then
        FromEval(FromCall(
          w.invoke(b.cached, SetSite(st, site, SiteOf(st, site).(alternativeCount := 0)), obj, sel, vs)))
      else ExprParted
    else if st == before then Miss(site, st)
    else ExprParted
  }

  /* ---- Statements ---- */

  function ExecBody(w: World, tab: Table, guards: Guards, ss: seq<Stmt>, st: State, gas: nat): (o: Outcome)
    ensures o.Normal? ==> o.gas <= gas
    decreases gas, ss, 0
  {
    if ss == [] then Normal(st, gas)
    else
      match ExecStmt(w, tab, guards, ss[0], st, gas)
      case Normal(st1, gas1) => ExecBody(w, tab, guards, ss[1..], st1, gas1)
      case o => o
  }

  function ExecStmt(w: World, tab: Table, guards: Guards, s: Stmt, st: State, gas: nat): (o: Outcome)
    ensures o.Normal? ==> o.gas <= gas
    decreases gas, s, 1
  {
    match s
    case Decl(x, None) =>
      if SetSymbol(tab, st, x, 0) == st then Normal(st, gas) else Parted
    case Decl(x, Some(e)) => ExecAssign(tab, x, ExecExpr(w, tab, guards, e, st), gas)
    case Assign(x, e) => ExecAssign(tab, x, ExecExpr(w, tab, guards, e, st), gas)
    case Return(e) =>
      (match ExecExpr(w, tab, guards, e, st)
       case Value(v, st1) => Returned(v, st1, gas)
       case o => Stopped(o, gas))
    case Evaluate(e) =>
      (match ExecExpr(w, tab, guards, e, st)
       case Value(_, st1) => Normal(st1, gas)
       case o => Stopped(o, gas))
    case If(cond, body) =>
      (match ExecExpr(w, tab, guards, cond, st)
       case Value(v, st1) =>
         if Lshr3(v) != 0 then ExecBody(w, tab, guards, body, st1, gas) else Normal(st1, gas)
       case o => Stopped(o, gas))
    case While(cond, body) => ExecLoop(w, tab, guards, cond, body, st, gas)
  }

  function Stopped(o: ExprOutcome, gas: nat): Outcome
    requires !o.Value?
  {
    match o
    case Miss(id, st) => Missed(id, st, gas)
    case ExprFault => Faulted
    case ExprParted => Parted
  }

  function ExecAssign(tab: Table, x: string, o: ExprOutcome, gas: nat): Outcome {
    match o
    case Value(v, st) => Normal(SetSymbol(tab, st, x, v), gas)
    case o => Stopped(o, gas)
  }

  function ExecLoop(
    w: World, tab: Table, guards: Guards, cond: Expr, body: seq<Stmt>, st: State, gas: nat): (o: Outcome)
    ensures o.Normal? ==> o.gas <= gas
    decreases gas, body, 1
  {
    match ExecExpr(w, tab, guards, cond, st)
    case Value(v, st1) =>
      if Lshr3(v) == 0 then Normal(st1, gas)
      else if gas == 0 then Exhausted
      else
        (match ExecBody(w, tab, guards, body, st1, gas - 1)
         case Normal(st2, gas2) => ExecLoop(w, tab, guards, cond, body, st2, gas2)
         case o => o)
    case o => Stopped(o, gas)
  }
}
