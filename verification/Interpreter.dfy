/**
 The tree-walking interpreter, and the search that resumes a function in the
 middle of its body, as functions of the interpreter context. `gas` bounds the
 loop iterations still allowed; running out of it stands for a run that is
 still going.
 */
module Interpreter {
  import opened Tagged
  import opened Ast
  import opened Runtime

  datatype EvalResult = Val(v: Word, st: State) | EvalFault

  datatype ArgsResult = Vals(vs: seq<Word>, st: State) | ArgsFault

  /** The context fields that statements read and write. */
  datatype Ctx = Ctx(st: State, retVal: Word, isReturning: bool, found: bool, gas: nat)

  datatype Run = Done(c: Ctx) | Crashed | OutOfGas

  /** The value a search returns, with the context after it. */
  datatype Search = At(v: Word, c: Ctx) | SearchCrashed | SearchOutOfGas

  /* ---- Expressions ---- */

  function EvalExpr(w: World, tab: Table, e: Expr, st: State): EvalResult
    decreases e, 0
  {
    match e
    case Number(n) => Val(Encode(n), st)
    case VarRef(x) => Val(LookupSymbol(tab, st, x), st)
    case Binary(op, l, r) =>
      (match EvalExpr(w, tab, l, st)
       case EvalFault => EvalFault
       case Val(lv, st1) =>
         match EvalExpr(w, tab, r, st1)
         case EvalFault => EvalFault
         case Val(rv, st2) => PerformOp(w, op, lv, rv, st2))
    case MethodCall(site, callee, sel, args) =>
      (match EvalExpr(w, tab, callee, st)
       case EvalFault => EvalFault
       case Val(obj, st1) => CallMethod(w, tab, site, sel, args, obj, st1))
    case ClosureCall(callee, args) =>
      (match EvalExpr(w, tab, callee, st)
       case EvalFault => EvalFault
       case Val(obj, st1) => CallClosure(w, tab, args, obj, st1))
    case NewObject(cls) => EvalNew(w, cls, st)
    case ClosureLiteral(c) => EvalClosure(w, tab, c, st)
  }

  function EvalArgs(w: World, tab: Table, args: seq<Expr>, st: State): ArgsResult
    decreases args, 0
  {
    if args == [] then Vals([], st)
    else
      match EvalExpr(w, tab, args[0], st)
      case EvalFault => ArgsFault
      case Val(v, st1) =>
        match EvalArgs(w, tab, args[1..], st1)
        case ArgsFault => ArgsFault
        case Vals(vs, st2) => Vals([v] + vs, st2)
  }

  /** Arguments already evaluated, in front of those still to come. */
  function Prefixed(vs: seq<Word>, r: ArgsResult): ArgsResult {
    match r
    case Vals(ws, st) => Vals(vs + ws, st)
    case ArgsFault => ArgsFault
  }

  lemma PrefixedTwice(vs: seq<Word>, v: Word, r: ArgsResult)
    ensures Prefixed(vs, Prefixed([v], r)) == Prefixed(vs + [v], r)
  {
    if r.Vals? {
      assert vs + ([v] + r.vs) == vs + [v] + r.vs;
    }
  }

  /** Integers and comparisons are computed; anything else is a call on the left operand. */
  function PerformOp(w: World, op: BinOp, l: Word, r: Word, st: State): EvalResult {
    match op
    case Comparison(c) => Val(Bool(ShiftedCompare(c, l, r)), st)
    case Arithmetic(a) =>
      if IsInteger(l) && IsInteger(r) then FromChecked(TaggedArith(a, l, r), st)
      else FromCall(w.overload(a, st, l, r))
  }

  function FromChecked(c: Checked, st: State): EvalResult {
    match c
    case Fine(v) => Val(v, st)
    case Trapped => EvalFault
  }

  function FromCall(r: CallResult): EvalResult {
    match r
    case Ret(v, st) => Val(v, st)
    case Fault => EvalFault
  }

  /** A method call on an evaluated receiver: the arguments, the profile, then the call. */
  function CallMethod(w: World, tab: Table, site: nat, sel: string, args: seq<Expr>, obj: Word, st: State)
    : EvalResult
    decreases args, 1
  {
    if obj == 0 then EvalFault
    else
      match EvalArgs(w, tab, args, st)
      case ArgsFault => EvalFault
      case Vals(vs, st1) => Dispatch(w, site, sel, obj, vs, st1)
  }

  function Dispatch(w: World, site: nat, sel: string, obj: Word, vs: seq<Word>, st: State): EvalResult {
    var cls := ClassOf(st.heap, obj);
    match Profile(SiteOf(st, site), cls)
    case Cached(s) => FromCall(w.invoke(s.cached, SetSite(st, site, s), obj, sel, vs))
    case Lookup(s, _) =>
      var slot := w.lookup(cls, sel);
      if slot == 0 then EvalFault
      else FromCall(w.invoke(slot, SetSite(st, site, s.(cached := slot)), obj, sel, vs))
  }

  function CallClosure(w: World, tab: Table, args: seq<Expr>, obj: Word, st: State): EvalResult
    decreases args, 1
  {
    if obj == 0 then EvalFault
    else
      match EvalArgs(w, tab, args, st)
      case ArgsFault => EvalFault
      case Vals(vs, st1) => FromCall(w.closure(st1, obj, vs))
  }

  /** An unknown class fails an assertion, and so does a use of the null that an exhausted memory yields. */
  function EvalNew(w: World, cls: string, st: State): EvalResult {
    if w.classNamed(cls) == 0 || MemoryFull(w, st.heap) then EvalFault
    else
      var (o, st1) := NewInstance(w, st, w.classNamed(cls));
      Val(o, st1)
  }

  /** Whether `lookupSymbol` returns an address. */
  predicate HasStorage(tab: Table, st: State, name: string) {
    var a := Resolve(tab, name);
    !a.Null? && (a.Global? ==> a in st.mem)
  }

  /** The captured words as the interpreter writes them: each bound variable goes into two slots. */
  function CapturedTwice(tab: Table, st: State, names: seq<string>): seq<Word> {
    if names == [] then []
    else
      var v := LookupSymbol(tab, st, names[0]);
      [v, v] + CapturedTwice(tab, st, names[1..])
  }

  /** The name of the closure is set before its bound variables are read. */
  function EvalClosure(w: World, tab: Table, c: Closure, st: State): EvalResult {
    var o := w.allocate(st.heap);
    var header := ClosureHeader(w, c);
    var st1 := SetSymbol(tab, st.(heap := st.heap[o := header + Zeros(|c.boundVars|)]), c.name, o);
    if MemoryFull(w, st.heap) then EvalFault
    else if c.boundVars == [] then Val(o, st1)
    else if exists x | x in c.boundVars :: !HasStorage(tab, st1, x) then EvalFault
    else Val(o, st1.(heap := st1.heap[o := header + CapturedTwice(tab, st1, c.boundVars)]))
  }

  /* ---- Statements ---- */

  function InterpBody(w: World, tab: Table, ss: seq<Stmt>, c: Ctx): (r: Run)
    ensures r.Done? ==> r.c.gas <= c.gas
    decreases c.gas, ss, 0
  {
    if ss == [] || c.isReturning then Done(c)
    else
      match InterpStmt(w, tab, ss[0], c)
      case Done(c1) => InterpBody(w, tab, ss[1..], c1)
      case r => r
  }

  function InterpStmt(w: World, tab: Table, s: Stmt, c: Ctx): (r: Run)
    ensures r.Done? ==> r.c.gas <= c.gas
    decreases c.gas, s, 1
  {
    match s
    case Decl(x, None) => Done(c.(st := SetSymbol(tab, c.st, x, 0)))
    case Decl(x, Some(e)) => Assigned(tab, x, EvalExpr(w, tab, e, c.st), c)
    case Assign(x, e) => Assigned(tab, x, EvalExpr(w, tab, e, c.st), c)
    case Return(e) =>
      (match EvalExpr(w, tab, e, c.st)
       case EvalFault => Crashed
       case Val(v, st) => Done(c.(st := st, retVal := v, isReturning := true)))
    case Evaluate(e) =>
      (match EvalExpr(w, tab, e, c.st)
       case EvalFault => Crashed
       case Val(_, st) => Done(c.(st := st)))
    case If(cond, body) =>
      (match EvalExpr(w, tab, cond, c.st)
       case EvalFault => Crashed
       case Val(v, st) => if Truthy(v) then InterpBody(w, tab, body, c.(st := st)) else Done(c.(st := st)))
    case While(cond, body) => InterpLoop(w, tab, cond, body, c)
  }

  function Assigned(tab: Table, x: string, r: EvalResult, c: Ctx): Run {
    match r
    case EvalFault => Crashed
    case Val(v, st) => Done(c.(st := SetSymbol(tab, st, x, v)))
  }

  /** `while (!isReturning && cond) body`: one unit of gas for each execution of the body. */
  function InterpLoop(w: World, tab: Table, cond: Expr, body: seq<Stmt>, c: Ctx): (r: Run)
    ensures r.Done? ==> r.c.gas <= c.gas
    decreases c.gas, body, 1
  {
    if c.isReturning then Done(c)
    else
      match EvalExpr(w, tab, cond, c.st)
      case EvalFault => Crashed
      case Val(v, st) =>
        if !Truthy(v) then Done(c.(st := st))
        else if c.gas == 0 then OutOfGas
        else
          match InterpBody(w, tab, body, c.(st := st, gas := c.gas - 1))
          case Done(c1) => InterpLoop(w, tab, cond, body, c1)
          case r => r
  }

  /** The body of an iteration whose condition held, then the rest of the loop. */
  function PassAndLoop(w: World, tab: Table, cond: Expr, body: seq<Stmt>, c: Ctx): (r: Run)
    ensures r.Done? ==> r.c.gas <= c.gas
  {
    if c.gas == 0 then OutOfGas
    else
      match InterpBody(w, tab, body, c.(gas := c.gas - 1))
      case Done(c1) => InterpLoop(w, tab, cond, body, c1)
      case r => r
  }

  /** The rest of a loop after a test of its condition. */
  function LoopTested(w: World, tab: Table, cond: Expr, body: seq<Stmt>, q: EvalResult, c: Ctx): Run {
    if q.EvalFault? then Crashed
    else if Truthy(q.v) then PassAndLoop(w, tab, cond, body, c.(st := q.st))
    else Done(c.(st := q.st))
  }

  lemma LoopUnfolds(w: World, tab: Table, cond: Expr, body: seq<Stmt>, q: EvalResult, c: Ctx)
    requires !c.isReturning && q == EvalExpr(w, tab, cond, c.st)
    ensures InterpLoop(w, tab, cond, body, c) == LoopTested(w, tab, cond, body, q, c)
  {
  }

  /* ---- Searching for the call to resume at ---- */

  function SkipExpr(w: World, tab: Table, e: Expr, id: nat, c: Ctx): (r: Search)
    ensures r.At? ==> r.c.gas <= c.gas
    decreases c.gas, e, 2
  {
    match e
    case Number(n) => At(Encode(n), c)
    case VarRef(x) => At(LookupSymbol(tab, c.st, x), c)
    case Binary(op, l, r) =>
      (match SkipExpr(w, tab, l, id, c)
       case At(lv, c1) =>
         if c1.found then
           match EvalExpr(w, tab, r, c1.st)
           case EvalFault => SearchCrashed
           case Val(rv, st) => Continue(PerformOp(w, op, lv, rv, st), c1)
         else
           (match SkipExpr(w, tab, r, id, c1)
            case At(rv, c2) => if c2.found then Continue(PerformOp(w, op, 0, rv, c2.st), c2) else At(0, c2)
            case q => q)
       case q => q)
    case MethodCall(site, callee, sel, args) =>
      (match SkipExpr(w, tab, callee, id, c)
       case At(obj, c1) =>
         if c1.found then Continue(CallMethod(w, tab, site, sel, args, obj, c1.st), c1)
         else if site == id then Continue(CallMethod(w, tab, site, sel, args, obj, c1.st), c1.(found := true))
         else At(0, c1)
       case q => q)
    case ClosureCall(callee, args) =>
      (match SkipExpr(w, tab, callee, id, c)
       case At(obj, c1) =>
         if c1.found then Continue(CallClosure(w, tab, args, obj, c1.st), c1) else At(0, c1)
       case q => q)
    case NewObject(cls) => Continue(EvalNew(w, cls, c.st), c)
    case ClosureLiteral(closure) =>
      (match SkipBody(w, tab, closure.body, id, c)
       case Done(c1) => At(0, c1)
       case Crashed => SearchCrashed
       case OutOfGas => SearchOutOfGas)
  }

  /** A search that has found its node goes on as ordinary evaluation. */
  function Continue(r: EvalResult, c: Ctx): Search {
    match r
    case EvalFault => SearchCrashed
    case Val(v, st) => At(v, c.(st := st))
  }

  function SkipBody(w: World, tab: Table, ss: seq<Stmt>, id: nat, c: Ctx): (r: Run)
    ensures r.Done? ==> r.c.gas <= c.gas
    decreases c.gas, ss, 0
  {
    if ss == [] || c.isReturning then Done(c)
    else
      match (if c.found then InterpStmt(w, tab, ss[0], c) else SkipStmt(w, tab, ss[0], id, c))
      case Done(c1) => SkipBody(w, tab, ss[1..], id, c1)
      case r => r
  }

  function SkipStmt(w: World, tab: Table, s: Stmt, id: nat, c: Ctx): (r: Run)
    ensures r.Done? ==> r.c.gas <= c.gas
    decreases c.gas, s, 3
  {
    match s
    case Decl(_, None) => Done(c)
    case Decl(x, Some(e)) => SkipAssigned(tab, x, SkipExpr(w, tab, e, id, c))
    case Assign(x, e) => SkipAssigned(tab, x, SkipExpr(w, tab, e, id, c))
    case Return(e) =>
      (match SkipExpr(w, tab, e, id, c)
       case At(v, c1) => Done(if c1.found then c1.(retVal := v, isReturning := true) else c1)
       case SearchCrashed => Crashed
       case SearchOutOfGas => OutOfGas)
    case Evaluate(e) => FromSearch(SkipExpr(w, tab, e, id, c))
    case If(cond, body) =>
      (match SkipExpr(w, tab, cond, id, c)
       case At(v, c1) =>
         if c1.found && Truthy(v) then InterpBody(w, tab, body, c1) else SkipBody(w, tab, body, id, c1)
       case SearchCrashed => Crashed
       case SearchOutOfGas => OutOfGas)
    case While(cond, body) =>
      (match SkipExpr(w, tab, cond, id, c)
       case SearchCrashed => Crashed
       case SearchOutOfGas => OutOfGas
       case At(v, c1) =>
         if c1.found && Truthy(v) then PassAndLoop(w, tab, cond, body, c1)
         else
           match SkipBody(w, tab, body, id, c1)
           case Done(c2) => if c2.found then InterpLoop(w, tab, cond, body, c2) else Done(c2)
           case r => r)
  }

  function SkipAssigned(tab: Table, x: string, r: Search): Run {
    match r
    case At(v, c) => Done(if c.found then c.(st := SetSymbol(tab, c.st, x, v)) else c)
    case SearchCrashed => Crashed
    case SearchOutOfGas => OutOfGas
  }

  function FromSearch(r: Search): Run {
    match r
    case At(_, c) => Done(c)
    case SearchCrashed => Crashed
    case SearchOutOfGas => OutOfGas
  }

  /** The search of a loop after its condition: the condition held and contained the call, or the body is searched. */
  function SearchedLoop(w: World, tab: Table, cond: Expr, body: seq<Stmt>, id: nat, v: Word, c: Ctx): Run {
    if c.found && Truthy(v) then PassAndLoop(w, tab, cond, body, c)
    else
      match SkipBody(w, tab, body, id, c)
      case Done(c1) => if c1.found then InterpLoop(w, tab, cond, body, c1) else Done(c1)
      case r => r
  }

  lemma SkipWhileUnfolds(w: World, tab: Table, cond: Expr, body: seq<Stmt>, id: nat, c: Ctx)
    ensures SkipStmt(w, tab, While(cond, body), id, c)
         == (match SkipExpr(w, tab, cond, id, c)
             case At(v, c1) => SearchedLoop(w, tab, cond, body, id, v, c1)
             case SearchCrashed => Crashed
             case SearchOutOfGas => OutOfGas)
  {
  }

  /** The search of a method call after its callee: the node was there, or is this call, or is not here. */
  function SearchedCall(
    w: World, tab: Table, site: nat, sel: string, args: seq<Expr>, id: nat, obj: Word, c: Ctx): Search
  {
    if c.found || site == id then Continue(CallMethod(w, tab, site, sel, args, obj, c.st), c.(found := true))
    else At(0, c)
  }

  lemma SkipMethodCallUnfolds(
    w: World, tab: Table, site: nat, callee: Expr, sel: string, args: seq<Expr>, id: nat, c: Ctx)
    ensures SkipExpr(w, tab, MethodCall(site, callee, sel, args), id, c)
         == (match SkipExpr(w, tab, callee, id, c)
             case At(obj, c1) => SearchedCall(w, tab, site, sel, args, id, obj, c1)
             case q => q)
  {
    var q := SkipExpr(w, tab, callee, id, c);
    if q.At? && q.c.found {
      assert q.c.(found := true) == q.c;
    }
  }

  /** The search of an operator after its left operand: the call was there, or may be on the right. */
  function SearchedBinary(w: World, tab: Table, op: BinOp, r: Expr, id: nat, lv: Word, c: Ctx): Search {
    if c.found then
      match EvalExpr(w, tab, r, c.st)
      case EvalFault => SearchCrashed
      case Val(rv, st) => Continue(PerformOp(w, op, lv, rv, st), c)
    else
      match SkipExpr(w, tab, r, id, c)
      case At(rv, c1) => if c1.found then Continue(PerformOp(w, op, 0, rv, c1.st), c1) else At(0, c1)
      case q => q
  }

  lemma SkipBinaryUnfolds(w: World, tab: Table, op: BinOp, l: Expr, r: Expr, id: nat, c: Ctx)
    ensures SkipExpr(w, tab, Binary(op, l, r), id, c)
         == (match SkipExpr(w, tab, l, id, c)
             case At(lv, c1) => SearchedBinary(w, tab, op, r, id, lv, c1)
             case q => q)
  {
  }
}
