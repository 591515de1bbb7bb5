/** The statement and expression trees, with one id per method-call site. */
module Ast {
  import opened Tagged

  datatype Option<+T> = None | Some(value: T)

  datatype BinOp = Comparison(cmp: CmpOp) | Arithmetic(arith: ArithOp)

  datatype Expr =
    | Number(value: int)
    | VarRef(name: string)
    | Binary(op: BinOp, lhs: Expr, rhs: Expr)
    | MethodCall(site: nat, callee: Expr, selector: string, args: seq<Expr>)
    | ClosureCall(callee: Expr, args: seq<Expr>)
    | NewObject(cls: string)
    | ClosureLiteral(closure: Closure)

  /** `decls` and `boundVars` are listed in the iteration order of the source's sets. */
  datatype Closure = Closure(
    name: string,
    params: seq<string>,
    decls: seq<string>,
    boundVars: seq<string>,
    body: seq<Stmt>)

  datatype Stmt =
    | Decl(name: string, init: Option<Expr>)
    | Assign(target: string, expr: Expr)
    | Return(expr: Expr)
    | If(cond: Expr, body: seq<Stmt>)
    | While(cond: Expr, body: seq<Stmt>)
    | Evaluate(expr: Expr)

  /* ---- Call sites ---- */

  /** Every method-call site executed as part of this node (a nested body is not). */
  function ExprSites(e: Expr): set<nat>
    decreases e
  {
    match e
    case Binary(_, l, r) => ExprSites(l) + ExprSites(r)
    case MethodCall(site, callee, _, args) => {site} + ExprSites(callee) + ArgsSites(args)
    case ClosureCall(callee, args) => ExprSites(callee) + ArgsSites(args)
    case _ => {}
  }

  function ArgsSites(args: seq<Expr>): set<nat>
    decreases args
  {
    if args == [] then {} else ExprSites(args[0]) + ArgsSites(args[1..])
  }

  function StmtSites(s: Stmt): set<nat>
    decreases s
  {
    match s
    case Decl(_, None) => {}
    case Decl(_, Some(e)) => ExprSites(e)
    case Assign(_, e) => ExprSites(e)
    case Return(e) => ExprSites(e)
    case Evaluate(e) => ExprSites(e)
    case If(c, b) => ExprSites(c) + BodySites(b)
    case While(c, b) => ExprSites(c) + BodySites(b)
  }

  function BodySites(ss: seq<Stmt>): set<nat>
    decreases ss
  {
    if ss == [] then {} else StmtSites(ss[0]) + BodySites(ss[1..])
  }

  /** Every site executed as part of the arguments of some call of this node. */
  function ArgumentSites(e: Expr): set<nat>
    decreases e
  {
    match e
    case Binary(_, l, r) => ArgumentSites(l) + ArgumentSites(r)
    case MethodCall(_, callee, _, args) => ArgumentSites(callee) + ArgsSites(args)
    case ClosureCall(callee, args) => ArgumentSites(callee) + ArgsSites(args)
    case _ => {}
  }

  function ArgumentSitesIn(ss: seq<Stmt>): set<nat>
    decreases ss
  {
    if ss == [] then {}
    else
      (match ss[0]
       case Decl(_, None) => {}
       case Decl(_, Some(e)) => ArgumentSites(e)
       case Assign(_, e) => ArgumentSites(e)
       case Return(e) => ArgumentSites(e)
       case Evaluate(e) => ArgumentSites(e)
       case If(c, b) => ArgumentSites(c) + ArgumentSitesIn(b)
       case While(c, b) => ArgumentSites(c) + ArgumentSitesIn(b))
      + ArgumentSitesIn(ss[1..])
  }

  /** The sites that are executed as part of a loop. */
  function LoopSitesStmt(s: Stmt): set<nat>
    decreases s
  {
    match s
    case If(_, b) => LoopSites(b)
    case While(c, b) => ExprSites(c) + BodySites(b)
    case _ => {}
  }

  function LoopSites(ss: seq<Stmt>): set<nat>
    decreases ss
  {
    if ss == [] then {} else LoopSitesStmt(ss[0]) + LoopSites(ss[1..])
  }

  /* ---- Sites that are executed in one place ---- */

  predicate OnceExpr(e: Expr, id: nat)
    decreases e
  {
    match e
    case Binary(_, l, r) => OnceExpr(l, id) && OnceExpr(r, id) && !(id in ExprSites(l) && id in ExprSites(r))
    case MethodCall(site, callee, _, args) =>
      && OnceExpr(callee, id) && OnceArgs(args, id)
      && (site == id ==> id !in ExprSites(callee) && id !in ArgsSites(args))
      && !(id in ExprSites(callee) && id in ArgsSites(args))
    case ClosureCall(callee, args) =>
      OnceExpr(callee, id) && OnceArgs(args, id) && !(id in ExprSites(callee) && id in ArgsSites(args))
    case _ => true
  }

  predicate OnceArgs(args: seq<Expr>, id: nat)
    decreases args
  {
    args == [] ||
    (OnceExpr(args[0], id) && OnceArgs(args[1..], id) && !(id in ExprSites(args[0]) && id in ArgsSites(args[1..])))
  }

  predicate OnceStmt(s: Stmt, id: nat)
    decreases s
  {
    match s
    case Decl(_, Some(e)) => OnceExpr(e, id)
    case Decl(_, None) => true
    case Assign(_, e) => OnceExpr(e, id)
    case Return(e) => OnceExpr(e, id)
    case Evaluate(e) => OnceExpr(e, id)
    case If(c, b) => OnceExpr(c, id) && OnceBody(b, id) && !(id in ExprSites(c) && id in BodySites(b))
    case While(c, b) => OnceExpr(c, id) && OnceBody(b, id) && !(id in ExprSites(c) && id in BodySites(b))
  }

  predicate OnceBody(ss: seq<Stmt>, id: nat)
    decreases ss
  {
    ss == [] ||
    (OnceStmt(ss[0], id) && OnceBody(ss[1..], id) && !(id in StmtSites(ss[0]) && id in BodySites(ss[1..])))
  }

  /* ---- What a search for a call site visits ---- */

  /** The sites the search compares with its target: call arguments are never searched, nested bodies are. */
  function SearchedExpr(e: Expr): set<nat>
    decreases e
  {
    match e
    case Binary(_, l, r) => SearchedExpr(l) + SearchedExpr(r)
    case MethodCall(site, callee, _, _) => {site} + SearchedExpr(callee)
    case ClosureCall(callee, _) => SearchedExpr(callee)
    case ClosureLiteral(closure) => SearchedBody(closure.body)
    case _ => {}
  }

  function SearchedStmt(s: Stmt): set<nat>
    decreases s
  {
    match s
    case Decl(_, None) => {}
    case Decl(_, Some(e)) => SearchedExpr(e)
    case Assign(_, e) => SearchedExpr(e)
    case Return(e) => SearchedExpr(e)
    case Evaluate(e) => SearchedExpr(e)
    case If(c, b) => SearchedExpr(c) + SearchedBody(b)
    case While(c, b) => SearchedExpr(c) + SearchedBody(b)
  }

  function SearchedBody(ss: seq<Stmt>): set<nat>
    decreases ss
  {
    if ss == [] then {} else SearchedStmt(ss[0]) + SearchedBody(ss[1..])
  }

  /** The call sites that the search meets inside closure literals, which belong to other functions. */
  function NestedExpr(e: Expr): set<nat>
    decreases e
  {
    match e
    case Binary(_, l, r) => NestedExpr(l) + NestedExpr(r)
    case MethodCall(_, callee, _, _) => NestedExpr(callee)
    case ClosureCall(callee, _) => NestedExpr(callee)
    case ClosureLiteral(closure) => SearchedBody(closure.body)
    case _ => {}
  }

  function NestedStmt(s: Stmt): set<nat>
    decreases s
  {
    match s
    case Decl(_, None) => {}
    case Decl(_, Some(e)) => NestedExpr(e)
    case Assign(_, e) => NestedExpr(e)
    case Return(e) => NestedExpr(e)
    case Evaluate(e) => NestedExpr(e)
    case If(c, b) => NestedExpr(c) + NestedBody(b)
    case While(c, b) => NestedExpr(c) + NestedBody(b)
  }

  function NestedBody(ss: seq<Stmt>): set<nat>
    decreases ss
  {
    if ss == [] then {} else NestedStmt(ss[0]) + NestedBody(ss[1..])
  }

  /** The classes of which the search creates objects, in order: it evaluates every `new` that it walks over. */
  function NewsInExpr(e: Expr): seq<string>
    decreases e
  {
    match e
    case Binary(_, l, r) => NewsInExpr(l) + NewsInExpr(r)
    case MethodCall(_, callee, _, _) => NewsInExpr(callee)
    case ClosureCall(callee, _) => NewsInExpr(callee)
    case ClosureLiteral(closure) => NewsInBody(closure.body)
    case NewObject(cls) => [cls]
    case _ => []
  }

  function NewsInStmt(s: Stmt): seq<string>
    decreases s
  {
    match s
    case Decl(_, None) => []
    case Decl(_, Some(e)) => NewsInExpr(e)
    case Assign(_, e) => NewsInExpr(e)
    case Return(e) => NewsInExpr(e)
    case Evaluate(e) => NewsInExpr(e)
    case If(c, b) => NewsInExpr(c) + NewsInBody(b)
    case While(c, b) => NewsInExpr(c) + NewsInBody(b)
  }

  function NewsInBody(ss: seq<Stmt>): seq<string>
    decreases ss
  {
    if ss == [] then [] else NewsInStmt(ss[0]) + NewsInBody(ss[1..])
  }

  /* ---- Resumable sites ---- */

  /** A callee the search can evaluate again to the same word. */
  predicate Atomic(e: Expr) {
    e.VarRef? || e.Number?
  }

  /** The guarded call `id` is reached through left operands and callees only. */
  predicate ResumableExpr(e: Expr, id: nat)
    decreases e
  {
    match e
    case MethodCall(site, callee, _, args) =>
      if site == id then Atomic(callee) && id !in ArgsSites(args)
      else ResumableExpr(callee, id) && id !in ArgsSites(args)
    case ClosureCall(callee, args) => ResumableExpr(callee, id) && id !in ArgsSites(args)
    case Binary(_, l, r) => ResumableExpr(l, id) && id !in ExprSites(r)
    case _ => false
  }

  /** The search for `id` ends at a resumable call outside every condition. */
  predicate ResumableStmt(s: Stmt, id: nat)
    decreases s
  {
    match s
    case Decl(_, Some(e)) => ResumableExpr(e, id)
    case Assign(_, e) => ResumableExpr(e, id)
    case Return(e) => ResumableExpr(e, id)
    case Evaluate(e) => ResumableExpr(e, id)
    case If(c, b) => id !in SearchedExpr(c) + ExprSites(c) && ResumableBody(b, id)
    case While(c, b) => id !in SearchedExpr(c) + ExprSites(c) && ResumableBody(b, id)
    case _ => false
  }

  predicate ResumableBody(ss: seq<Stmt>, id: nat)
    decreases ss
  {
    ss != [] &&
    if id in StmtSites(ss[0])
    then ResumableStmt(ss[0], id) && id !in BodySites(ss[1..])
    else id !in SearchedStmt(ss[0]) && ResumableBody(ss[1..], id)
  }

  /** The classes of which the search creates objects before it finds call `id`. */
  function NewsBeforeStmt(s: Stmt, id: nat): seq<string>
    decreases s
  {
    match s
    case If(c, b) => NewsInExpr(c) + NewsBefore(b, id)
    case While(c, b) => NewsInExpr(c) + NewsBefore(b, id)
    case _ => []
  }

  function NewsBefore(ss: seq<Stmt>, id: nat): seq<string>
    decreases ss
  {
    if ss == [] then []
    else if id in StmtSites(ss[0]) then NewsBeforeStmt(ss[0], id)
    else NewsInStmt(ss[0]) + NewsBefore(ss[1..], id)
  }
}
