/**
 Closures: which variables `check` decides to capture, and what a closure finds
 in them when it is entered.
 */
module Closures {
  import opened Tagged
  import opened Ast
  import opened Runtime
  import opened Interpreter
  import opened Frames
  import opened Ir
  import opened CompiledRun

  /* ---- What the collection gathers ---- */

  function ExprDecls(e: Expr): set<string>
    decreases e
  {
    match e
    case Binary(_, l, r) => ExprDecls(l) + ExprDecls(r)
    case MethodCall(_, callee, _, args) => ExprDecls(callee) + ArgsDecls(args)
    case ClosureCall(callee, args) => ExprDecls(callee) + ArgsDecls(args)
    case ClosureLiteral(c) => {c.name}
    case _ => {}
  }

  function ArgsDecls(args: seq<Expr>): set<string>
    decreases args
  {
    if args == [] then {} else ExprDecls(args[0]) + ArgsDecls(args[1..])
  }

  /** Initialisers are not looked into. */
  function StmtDecls(s: Stmt): set<string>
    decreases s
  {
    match s
    case Decl(x, _) => {x}
    case Assign(_, e) => ExprDecls(e)
    case Return(e) => ExprDecls(e)
    case Evaluate(e) => ExprDecls(e)
    case If(c, b) => ExprDecls(c) + BodyDecls(b)
    case While(c, b) => ExprDecls(c) + BodyDecls(b)
  }

  function BodyDecls(ss: seq<Stmt>): set<string>
    decreases ss
  {
    if ss == [] then {} else StmtDecls(ss[0]) + BodyDecls(ss[1..])
  }

  function Names(names: seq<string>): set<string> {
    set x | x in names
  }

  function ExprUses(e: Expr): set<string>
    decreases e
  {
    match e
    case VarRef(x) => {x}
    case Binary(_, l, r) => ExprUses(l) + ExprUses(r)
    case MethodCall(_, callee, _, args) => ExprUses(callee) + ArgsUses(args)
    case ClosureCall(callee, args) => ExprUses(callee) + ArgsUses(args)
    case ClosureLiteral(c) => BodyUses(c.body) - Names(c.params) - BodyDecls(c.body)
    case _ => {}
  }

  function ArgsUses(args: seq<Expr>): set<string>
    decreases args
  {
    if args == [] then {} else ExprUses(args[0]) + ArgsUses(args[1..])
  }

  function StmtUses(s: Stmt): set<string>
    decreases s
  {
    match s
    case Decl(_, _) => {}
    case Assign(x, e) => {x} + ExprUses(e)
    case Return(e) => ExprUses(e)
    case Evaluate(e) => ExprUses(e)
    case If(c, b) => ExprUses(c) + BodyUses(b)
    case While(c, b) => ExprUses(c) + BodyUses(b)
  }

  function BodyUses(ss: seq<Stmt>): set<string>
    decreases ss
  {
    if ss == [] then {} else StmtUses(ss[0]) + BodyUses(ss[1..])
  }

  /** The bound variables: used, and neither a parameter nor declared. */
  function BoundOf(c: Closure): set<string> {
    BodyUses(c.body) - Names(c.params) - BodyDecls(c.body)
  }

  method EraseParameters(uses: set<string>, params: seq<string>) returns (left: set<string>)
    ensures left == uses - Names(params)
  {
    left := uses;
    var i := 0;
    while i < |params|
      invariant 0 <= i <= |params| && left == uses - Names(params[..i])
    {
      assert params[..i + 1] == params[..i] + [params[i]];
      left := left - {params[i]};
      i := i + 1;
    }
    assert params[..i] == params;
  }

  method EraseDeclarations(uses: set<string>, decls: set<string>) returns (left: set<string>)
    ensures left == uses - decls
  {
    left := uses;
    var rest := decls;
    while rest != {}
      invariant rest <= decls && left == uses - (decls - rest)
      decreases |rest|
    {
      var d :| d in rest;
      left := left - {d};
      rest := rest - {d};
    }
  }

  /** A closure declaration node: `check` fills in what it declares and what it captures. */
  class ClosureDecl {
    const decl: Closure
    var decls: set<string>
    var boundVars: set<string>
    var checked: bool

    ghost predicate Valid()
      reads this
    {
      if checked then decls == BodyDecls(decl.body) && boundVars == BoundOf(decl)
      else decls == {} && boundVars == {}
    }

    constructor (c: Closure)
      ensures Valid() && decl == c && !checked
    {
      decl, decls, boundVars, checked := c, {}, {}, false;
    }

    /** Collect everything, then erase parameters and declarations from the uses. */
    method Check()
      requires Valid()
      modifies this
      ensures Valid() && checked
      decreases decl, 1
    {
      if checked {
        return;
      }
      CollectBody(decl.body);
      boundVars := EraseParameters(boundVars, decl.params);
      boundVars := EraseDeclarations(boundVars, decls);
      checked := true;
    }

    method CollectExpr(e: Expr)
      modifies this
      ensures decls == old(decls) + ExprDecls(e) && boundVars == old(boundVars) + ExprUses(e)
      ensures checked == old(checked)
      decreases e, 0
    {
      match e
      case VarRef(x) => boundVars := boundVars + {x};
      case Binary(_, l, r) =>
        CollectExpr(l);
        CollectExpr(r);
      case MethodCall(_, callee, _, args) =>
        CollectExpr(callee);
        CollectArgs(args);
      case ClosureCall(callee, args) =>
        CollectExpr(callee);
        CollectArgs(args);
      case ClosureLiteral(c) =>
        var nested := new ClosureDecl(c);
        nested.Check();
        boundVars := boundVars + nested.boundVars;
        decls := decls + {c.name};
      case _ =>
    }

    method CollectArgs(args: seq<Expr>)
      modifies this
      ensures decls == old(decls) + ArgsDecls(args) && boundVars == old(boundVars) + ArgsUses(args)
      ensures checked == old(checked)
      decreases args, 0
    {
      if args != [] {
        CollectExpr(args[0]);
        CollectArgs(args[1..]);
      }
    }

    method CollectStmt(s: Stmt)
      modifies this
      ensures decls == old(decls) + StmtDecls(s) && boundVars == old(boundVars) + StmtUses(s)
      ensures checked == old(checked)
      decreases s, 0
    {
      match s
      case Decl(x, _) => decls := decls + {x};
      case Assign(x, e) =>
        boundVars := boundVars + {x};
        CollectExpr(e);
      case Return(e) => CollectExpr(e);
      case Evaluate(e) => CollectExpr(e);
      case If(c, b) =>
        CollectExpr(c);
        CollectBody(b);
      case While(c, b) =>
        CollectExpr(c);
        CollectBody(b);
    }

    method CollectBody(ss: seq<Stmt>)
      modifies this
      ensures decls == old(decls) + BodyDecls(ss) && boundVars == old(boundVars) + BodyUses(ss)
      ensures checked == old(checked)
      decreases ss, 0
    {
      if ss != [] {
        CollectStmt(ss[0]);
        CollectBody(ss[1..]);
      }
    }
  }

  /* ---- What running a body looks up ---- */

  function ExprLookups(e: Expr): set<string>
    decreases e
  {
    match e
    case VarRef(x) => {x}
    case Binary(_, l, r) => ExprLookups(l) + ExprLookups(r)
    case MethodCall(_, callee, _, args) => ExprLookups(callee) + ArgsLookups(args)
    case ClosureCall(callee, args) => ExprLookups(callee) + ArgsLookups(args)
    case ClosureLiteral(c) => {c.name} + BoundOf(c)
    case _ => {}
  }

  function ArgsLookups(args: seq<Expr>): set<string>
    decreases args
  {
    if args == [] then {} else ExprLookups(args[0]) + ArgsLookups(args[1..])
  }

  function StmtLookups(s: Stmt): set<string>
    decreases s
  {
    match s
    case Decl(x, None) => {x}
    case Decl(x, Some(e)) => {x} + ExprLookups(e)
    case Assign(x, e) => {x} + ExprLookups(e)
    case Return(e) => ExprLookups(e)
    case Evaluate(e) => ExprLookups(e)
    case If(c, b) => ExprLookups(c) + BodyLookups(b)
    case While(c, b) => ExprLookups(c) + BodyLookups(b)
  }

  function BodyLookups(ss: seq<Stmt>): set<string>
    decreases ss
  {
    if ss == [] then {} else StmtLookups(ss[0]) + BodyLookups(ss[1..])
  }

  /** The part of the lookups that happens in initialisers. */
  function StmtInits(s: Stmt): set<string>
    decreases s
  {
    match s
    case Decl(_, Some(e)) => ExprLookups(e)
    case If(_, b) => BodyInits(b)
    case While(_, b) => BodyInits(b)
    case _ => {}
  }

  function BodyInits(ss: seq<Stmt>): set<string>
    decreases ss
  {
    if ss == [] then {} else StmtInits(ss[0]) + BodyInits(ss[1..])
  }

  lemma {:induction false} ExprLookupsCollected(e: Expr)
    ensures ExprLookups(e) == ExprDecls(e) + ExprUses(e)
    decreases e
  {
    match e
    case Binary(_, l, r) =>
      ExprLookupsCollected(l);
      ExprLookupsCollected(r);
    case MethodCall(_, callee, _, args) =>
      ExprLookupsCollected(callee);
      ArgsLookupsCollected(args);
    case ClosureCall(callee, args) =>
      ExprLookupsCollected(callee);
      ArgsLookupsCollected(args);
    case _ =>
  }

  lemma {:induction false} ArgsLookupsCollected(args: seq<Expr>)
    ensures ArgsLookups(args) == ArgsDecls(args) + ArgsUses(args)
    decreases args
  {
    if args != [] {
      ExprLookupsCollected(args[0]);
      ArgsLookupsCollected(args[1..]);
    }
  }

  lemma {:induction false} StmtLookupsCollected(s: Stmt)
    ensures StmtLookups(s) == StmtDecls(s) + StmtUses(s) + StmtInits(s)
    decreases s
  {
    match s
    case Decl(_, None) =>
    case Decl(_, Some(e)) => ExprLookupsCollected(e);
    case Assign(_, e) => ExprLookupsCollected(e);
    case Return(e) => ExprLookupsCollected(e);
    case Evaluate(e) => ExprLookupsCollected(e);
    case If(c, b) =>
      ExprLookupsCollected(c);
      BodyLookupsCollected(b);
    case While(c, b) =>
      ExprLookupsCollected(c);
      BodyLookupsCollected(b);
  }

  /** Running a body looks up what was collected from it, and what its initialisers mention. */
  lemma {:induction false} BodyLookupsCollected(ss: seq<Stmt>)
    ensures BodyLookups(ss) == BodyDecls(ss) + BodyUses(ss) + BodyInits(ss)
    decreases ss
  {
    if ss != [] {
      StmtLookupsCollected(ss[0]);
      BodyLookupsCollected(ss[1..]);
    }
  }

  /** Everything the closure's own table binds. */
  function Scope(c: Closure): set<string> {
    Names(c.params) + BodyDecls(c.body) + BoundOf(c)
  }

  /**
   After `check`, bound variables are apart from parameters and declarations, and
   the closure's table covers everything its body looks up, captured variables of
   nested closures included, exactly when it covers the initialisers.
   */
  lemma ScopeIsClosedExactlyWhen(c: Closure)
    ensures BoundOf(c) !! Names(c.params) && BoundOf(c) !! BodyDecls(c.body)
    ensures BodyLookups(c.body) <= Scope(c) <==> BodyInits(c.body) <= Scope(c)
  {
    BodyLookupsCollected(c.body);
  }

  /** `{ var x = y; return x; }` captures nothing: `y` would be found among the globals, if anywhere. */
  lemma InitialiserIsNotCaptured()
    ensures var c := Closure("f", [], [], [], [Decl("x", Some(VarRef("y"))), Return(VarRef("x"))]);
            BoundOf(c) == {} && "y" in BodyLookups(c.body)
  {
    var c := Closure("f", [], [], [], [Decl("x", Some(VarRef("y"))), Return(VarRef("x"))]);
    assert c.body[1..] == [Return(VarRef("x"))] && c.body[1..][1..] == [];
    assert BodyDecls(c.body) == {"x"} && BodyUses(c.body[1..]) == {"x"};
  }

  /* ---- Capture ---- */

  predicate Distinct(names: seq<string>) {
    forall i, j | 0 <= i < j < |names| :: names[i] != names[j]
  }

  /** A closure whose lists hold what `check` computed, each name once. */
  predicate Checked(c: Closure) {
    && Distinct(c.boundVars) && Names(c.boundVars) == BoundOf(c)
    && Distinct(c.decls) && Names(c.decls) == BodyDecls(c.body)
  }

  lemma CheckedIsApart(c: Closure)
    requires Checked(c)
    ensures BoundApart(c)
  {
    forall x | x in c.boundVars ensures x !in c.params && x !in c.decls {
      assert x in Names(c.boundVars);
      assert x in c.decls ==> x in Names(c.decls);
      assert x in c.params ==> x in Names(c.params);
    }
  }

  lemma {:induction false} LoadAllAt(st: State, addrs: seq<Addr>, i: nat)
    requires i < |addrs|
    ensures LoadAll(st, addrs)[i] == Load(st, addrs[i])
    decreases addrs
  {
    if i > 0 {
      LoadAllAt(st, addrs[1..], i - 1);
    }
  }

  /** The activation of a closure object. */
  function Entered(c: Closure, o: Word): Activation {
    Activation(c, false, o, [], [])
  }

  /** Inside a closure, compiled or interpreted, bound variable `i` is word `BOUND_BASE + i` of the closure object. */
  lemma BoundVariableAt(c: Closure, o: Word, i: nat)
    requires Checked(c) && i < |c.boundVars|
    ensures Resolve(ClosureSymbols(Entered(c, o)), c.boundVars[i]) == Field(o, BOUND_BASE + i)
    ensures Resolve(ClosureTable(Entered(c, o)), c.boundVars[i]) == Field(o, BOUND_BASE + i)
  {
    var x := c.boundVars[i];
    CheckedIsApart(c);
    var fields := Fields(o, BOUND_BASE, |c.boundVars|);
    var s := Bind(Bind(map["self" := SelfSlot], c.params, Params(|c.params|)), c.decls, Locals(|c.decls|));
    var j := BindAt(s, c.boundVars, fields, x);
    var t := Bind(map[], c.params, Params(|c.params|));
    var k := BindAt(t, c.boundVars, fields, x);
    BindElsewhere(Bind(t, c.boundVars, fields), c.decls, Locals(|c.decls|), x);
  }

  /** The closure's own name lives outside the closure object. */
  predicate NamedElsewhere(tab: Table, c: Closure, o: Word) {
    var a := Resolve(tab, c.name);
    a.Field? ==> a.owner != o
  }

  /**
   A closure created by compiled code finds in each bound variable, whether it is
   entered compiled or interpreted, the value the variable had when the closure
   was created, for as long as the closure object is left alone.
   */
  lemma CompiledCapture(w: World, tab: Table, c: Closure, st: State, later: State, x: string)
    requires Checked(c) && x in c.boundVars
    requires NamedElsewhere(tab, c, w.allocate(st.heap))
    requires var (o, st') := CreateCompiled(w, tab, c, st);
             o in later.heap && o in st'.heap && later.heap[o] == st'.heap[o]
    ensures var o := CreateCompiled(w, tab, c, st).0;
            && LookupSymbol(ClosureSymbols(Entered(c, o)), later, x) == LookupSymbol(tab, st, x)
            && LookupSymbol(ClosureTable(Entered(c, o)), later, x) == LookupSymbol(tab, st, x)
  {
    var i :| 0 <= i < |c.boundVars| && c.boundVars[i] == x;
    var o := w.allocate(st.heap);
    BoundVariableAt(c, o, i);
    LoadAllAt(st, AddressesOf(tab, c.boundVars), i);
    var built := ClosureHeader(w, c) + LoadAll(st, AddressesOf(tab, c.boundVars));
    assert built[BOUND_BASE + i] == LoadAll(st, AddressesOf(tab, c.boundVars))[i];
    assert later.heap[o] == built;
  }

  /* ---- Closures created by the interpreter ---- */

  lemma {:induction false} CapturedTwiceAt(tab: Table, st: State, names: seq<string>, i: nat)
    requires i < |names|
    ensures |CapturedTwice(tab, st, names)| == 2 * |names|
    ensures CapturedTwice(tab, st, names)[i] == LookupSymbol(tab, st, names[i / 2])
    decreases names
  {
    var rest := names[1..];
    var v := LookupSymbol(tab, st, names[0]);
    assert CapturedTwice(tab, st, names) == [v, v] + CapturedTwice(tab, st, rest);
    if i >= 2 {
      CapturedTwiceAt(tab, st, rest, i - 2);
      assert rest[(i - 2) / 2] == names[i / 2];
    } else if rest != [] {
      CapturedTwiceAt(tab, st, rest, 0);
    }
  }

  /** All captured values are one value. */
  predicate OneValue(tab: Table, st: State, names: seq<string>) {
    forall i | 0 <= i < |names| :: LookupSymbol(tab, st, names[i]) == LookupSymbol(tab, st, names[0])
  }

  /** The state in which the interpreter captures: the closure is allocated and its name is set. */
  function Naming(w: World, tab: Table, c: Closure, st: State): State {
    var o := w.allocate(st.heap);
    SetSymbol(tab, st.(heap := st.heap[o := ClosureHeader(w, c) + Zeros(|c.boundVars|)]), c.name, o)
  }

  lemma InterpretedVariable(w: World, tab: Table, c: Closure, st: State, i: nat)
    requires Checked(c) && i < |c.boundVars| && EvalClosure(w, tab, c, st).Val?
    ensures var r := EvalClosure(w, tab, c, st);
            LookupSymbol(ClosureTable(Entered(c, r.v)), r.st, c.boundVars[i])
            == LookupSymbol(tab, Naming(w, tab, c, st), c.boundVars[i / 2])
  {
    var r := EvalClosure(w, tab, c, st);
    var st1 := Naming(w, tab, c, st);
    BoundVariableAt(c, r.v, i);
    CapturedTwiceAt(tab, st1, c.boundVars, i);
    assert r.st.heap[r.v] == ClosureHeader(w, c) + CapturedTwice(tab, st1, c.boundVars);
  }

  lemma {:induction false} HalvingReachesTheFirst(tab: Table, st: State, names: seq<string>, i: nat)
    requires i < |names|
    requires forall j | 0 <= j < |names| :: LookupSymbol(tab, st, names[j / 2]) == LookupSymbol(tab, st, names[j])
    ensures LookupSymbol(tab, st, names[i]) == LookupSymbol(tab, st, names[0])
    decreases i
  {
    if i > 0 {
      HalvingReachesTheFirst(tab, st, names, i / 2);
    }
  }

  /**
   The interpreter stores each captured value in two consecutive words, so a
   closure it creates finds every bound variable right exactly when all of them
   held one value.
   */
  lemma InterpretedCaptureIsRightExactlyWhen(w: World, tab: Table, c: Closure, st: State)
    requires Checked(c) && EvalClosure(w, tab, c, st).Val?
    ensures var r := EvalClosure(w, tab, c, st);
            var st1 := Naming(w, tab, c, st);
            (forall x | x in c.boundVars ::
               LookupSymbol(ClosureTable(Entered(c, r.v)), r.st, x) == LookupSymbol(tab, st1, x))
            <==> OneValue(tab, st1, c.boundVars)
  {
    var r := EvalClosure(w, tab, c, st);
    var st1 := Naming(w, tab, c, st);
    forall i | 0 <= i < |c.boundVars|
      ensures LookupSymbol(ClosureTable(Entered(c, r.v)), r.st, c.boundVars[i])
           == LookupSymbol(tab, st1, c.boundVars[i / 2])
    {
      InterpretedVariable(w, tab, c, st, i);
    }
    if forall x | x in c.boundVars ::
         LookupSymbol(ClosureTable(Entered(c, r.v)), r.st, x) == LookupSymbol(tab, st1, x) {
      forall i | 0 <= i < |c.boundVars|
        ensures LookupSymbol(tab, st1, c.boundVars[i]) == LookupSymbol(tab, st1, c.boundVars[0])
      {
        HalvingReachesTheFirst(tab, st1, c.boundVars, i);
      }
    }
  }

  /**
   A closure that captures its own name finds itself when the interpreter created
   it, and the variable's earlier value when compiled code did: the two set the
   name on different sides of the capture.
   */
  lemma SelfReferenceDiffers(w: World, tab: Table, c: Closure, st: State, slot: nat)
    requires Checked(c) && c.boundVars == [c.name] && Resolve(tab, c.name) == Local(slot)
    ensures var (o, st') := CreateCompiled(w, tab, c, st);
            LookupSymbol(ClosureTable(Entered(c, o)), st', c.name) == LookupSymbol(tab, st, c.name)
    ensures !MemoryFull(w, st.heap) ==>
              var r := EvalClosure(w, tab, c, st);
              r.Val? && LookupSymbol(ClosureTable(Entered(c, r.v)), r.st, c.name) == r.v
  {
    CompiledCapture(w, tab, c, st, CreateCompiled(w, tab, c, st).1, c.name);
    if !MemoryFull(w, st.heap) {
      InterpretedVariable(w, tab, c, st, 0);
    }
  }
}
