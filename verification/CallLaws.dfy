/**
 What a call does: which body runs, what it finds in its variables when it starts,
 and what is left of it for its caller.
 */
module CallLaws {
  import opened Tagged
  import opened Ast
  import opened Runtime
  import opened Interpreter
  import opened Frames
  import opened Nesting
  import opened StatementLaws

  /* ---- What a callee finds ---- */

  lemma {:induction false} StoredAll(st: State, addrs: seq<Addr>, vs: seq<Word>)
    requires |addrs| == |vs| && forall i | 0 <= i < |addrs| :: !addrs[i].Field? && !addrs[i].Null?
    requires forall i, j | 0 <= i < j < |addrs| :: addrs[i] != addrs[j]
    ensures var st' := StoreAll(st, addrs, vs);
            && st'.heap == st.heap && st'.sites == st.sites
            && (forall i | 0 <= i < |addrs| :: addrs[i] in st'.mem && st'.mem[addrs[i]] == vs[i])
            && (forall x | x !in addrs :: (x in st'.mem <==> x in st.mem) && (x in st.mem ==> st'.mem[x] == st.mem[x]))
    decreases |addrs|
  {
    var n := |addrs| - 1;
    if addrs != [] {
      StoredAll(st, addrs[..n], vs[..n]);
      forall x | x !in addrs ensures x !in addrs[..n] {
      }
    }
  }

  /** Variable `x` is in both states or in neither, with one value. */
  predicate SameAt(st: State, st': State, x: Addr) {
    (x in st'.mem <==> x in st.mem) && (x in st.mem ==> st'.mem[x] == st.mem[x])
  }

  lemma ParamsStored(st: State, vs: seq<Word>, x: Addr)
    ensures var st' := StoreAll(st, Params(|vs|), vs);
            && st'.heap == st.heap && st'.sites == st.sites
            && if x.Param? && x.index < |vs| then x in st'.mem && st'.mem[x] == vs[x.index] else SameAt(st, st', x)
  {
    StoredAll(st, Params(|vs|), vs);
    if x.Param? && x.index < |vs| {
      assert Params(|vs|)[x.index] == x;
    }
  }

  lemma LocalsStored(st: State, n: nat, x: Addr)
    ensures var st' := StoreAll(st, Locals(n), Zeros(n));
            && st'.heap == st.heap && st'.sites == st.sites
            && if x.Local? && x.index < n then x in st'.mem && st'.mem[x] == 0 else SameAt(st, st', x)
  {
    StoredAll(st, Locals(n), Zeros(n));
    if x.Local? && x.index < n {
      assert Locals(n)[x.index] == x;
    }
  }

  /** Variable `x` at the start of a call made in state `st`: its value, or none. */
  function AtStart(a: Activation, sel: Word, vs: seq<Word>, st: State, x: Addr): Option<Word> {
    match x
    case Param(i) => if i < |vs| then Some(vs[i]) else None
    case Local(i) => if i < |a.decl.decls| then Some(0) else None
    case SelfSlot => Some(a.self)
    case CmdSlot => if a.isMethod then Some(Encode(Signed(sel))) else None
    case Global(_) => if x in st.mem then Some(st.mem[x]) else None
    case _ => None
  }

  predicate Has(st: State, x: Addr, v: Option<Word>) {
    match v
    case Some(w) => x in st.mem && st.mem[x] == w
    case None => x !in st.mem
  }

  /**
   A call starts with its arguments in its parameters, null in its locals, its
   receiver and, in a method, its selector; with the globals of its caller, and with
   no other variable.
   */
  lemma CalleeStarts(a: Activation, sel: Word, vs: seq<Word>, st: State, x: Addr)
    requires |vs| == |a.decl.params|
    ensures var start := EntryState(a, sel, vs, Frameless(st));
            start.heap == st.heap && start.sites == st.sites && Has(start, x, AtStart(a, sel, vs, st, x))
  {
    var st1 := Store(Frameless(st), SelfSlot, a.self);
    var st2 := if a.isMethod then Store(st1, CmdSlot, Encode(Signed(sel))) else st1;
    var st3 := StoreAll(st2, Params(|vs|), vs);
    ParamsStored(st2, vs, x);
    LocalsStored(st3, |a.decl.decls|, x);
    assert EntryState(a, sel, vs, Frameless(st)) == StoreAll(st3, Locals(|a.decl.decls|), Zeros(|a.decl.decls|));
  }

  /** What a name means in a method that is called in state `st`. */
  function MethodFinds(a: Activation, sel: Word, vs: seq<Word>, st: State, x: string): Word
    requires |vs| == |a.decl.params|
  {
    if x in a.own then Load(st, Field(a.self, 1 + Place(a.own, x)))
    else if x == "self" then a.self
    else if x == "cmd" then Encode(Signed(sel))
    else if x in a.decl.decls then 0
    else if x in a.decl.params then vs[Place(a.decl.params, x)]
    else Load(st, Global(x))
  }

  /** And in a closure: bound variable `i` is the word behind the four of the header, and `i` further. */
  function ClosureFinds(a: Activation, vs: seq<Word>, st: State, x: string): Word
    requires |vs| == |a.decl.params|
  {
    if x in a.decl.decls then 0
    else if x in a.decl.boundVars then Load(st, Field(a.self, 4 + Place(a.decl.boundVars, x)))
    else if x in a.decl.params then vs[Place(a.decl.params, x)]
    else Load(st, Global(x))
  }

  /** Where a name of a method lives. */
  lemma MethodAddress(a: Activation, x: string)
    requires a.isMethod
    ensures Resolve(InterpretedTable(a), x)
         == if x in a.own then Field(a.self, 1 + Place(a.own, x))
            else if x == "self" then SelfSlot
            else if x == "cmd" then CmdSlot
            else if x in a.decl.decls then Local(Place(a.decl.decls, x))
            else if x in a.decl.params then Param(Place(a.decl.params, x))
            else Global(x)
  {
    var d := a.decl;
    var t := Bind(Bind(map[], d.params, Params(|d.params|)), d.decls, Locals(|d.decls|));
    var t' := t["self" := SelfSlot]["cmd" := CmdSlot];
    ParamsAndLocals(map[], d, x);
    if x in a.own {
      FieldAt(t', a.own, a.self, IVAR_BASE, x);
    } else {
      BindElsewhere(t', a.own, Fields(a.self, IVAR_BASE, |a.own|), x);
    }
  }

  lemma ClosureAddress(a: Activation, x: string)
    requires !a.isMethod
    ensures Resolve(InterpretedTable(a), x)
         == if x in a.decl.decls then Local(Place(a.decl.decls, x))
            else if x in a.decl.boundVars then Field(a.self, 4 + Place(a.decl.boundVars, x))
            else if x in a.decl.params then Param(Place(a.decl.params, x))
            else Global(x)
  {
    var d := a.decl;
    var t: Table := map[];
    var t1 := Bind(t, d.params, Params(|d.params|));
    var fields := Fields(a.self, BOUND_BASE, |d.boundVars|);
    var t2 := Bind(t1, d.boundVars, fields);
    if x in d.decls {
      LocalsAt(t2, d.decls, x);
    } else {
      BindElsewhere(t2, d.decls, Locals(|d.decls|), x);
      if x in d.boundVars {
        FieldAt(t1, d.boundVars, a.self, BOUND_BASE, x);
      } else {
        BindElsewhere(t1, d.boundVars, fields, x);
        if x in d.params {
          ParamsAt(t, d.params, x);
        } else {
          BindElsewhere(t, d.params, Params(|d.params|), x);
        }
      }
    }
  }

  lemma MethodStarts(a: Activation, sel: Word, vs: seq<Word>, st: State, x: string)
    requires a.isMethod && |vs| == |a.decl.params|
    ensures var start := EntryState(a, sel, vs, Frameless(st));
            LookupSymbol(InterpretedTable(a), start, x) == MethodFinds(a, sel, vs, st, x)
  {
    var y := Resolve(InterpretedTable(a), x);
    MethodAddress(a, x);
    CalleeStarts(a, sel, vs, st, y);
  }

  lemma ClosureStarts(a: Activation, vs: seq<Word>, st: State, x: string)
    requires !a.isMethod && |vs| == |a.decl.params|
    ensures var start := EntryState(a, 0, vs, Frameless(st));
            LookupSymbol(InterpretedTable(a), start, x) == ClosureFinds(a, vs, st, x)
  {
    var y := Resolve(InterpretedTable(a), x);
    ClosureAddress(a, x);
    CalleeStarts(a, 0, vs, st, y);
  }

  /** Compiled code starts with the same variables, but for which of two of one name it takes. */
  lemma CompiledStarts(a: Activation, sel: Word, vs: seq<Word>, st: State, x: string)
    requires |vs| == |a.decl.params|
    ensures var start := EntryState(a, sel, vs, Frameless(st));
            LookupSymbol(CompiledSymbols(a), start, x)
            == if a.isMethod && x in a.ivars then Load(st, Field(a.self, 1 + Place(a.ivars, x)))
               else if !a.isMethod && x in a.decl.boundVars then Load(st, Field(a.self, 4 + Place(a.decl.boundVars, x)))
               else if x in a.decl.decls then 0
               else if x in a.decl.params then vs[Place(a.decl.params, x)]
               else if x == "self" then a.self
               else if a.isMethod && x == "cmd" then Encode(Signed(sel))
               else Load(st, Global(x))
  {
    var y := Resolve(CompiledSymbols(a), x);
    if a.isMethod {
      MethodSymbolOf(a, x);
    } else {
      ClosureSymbolOf(a, x);
    }
    CalleeStarts(a, sel, vs, st, y);
  }

  /* ---- What a caller has left ---- */

  lemma BackInCaller(caller: State, st: State)
    ensures var back := BackIn(caller, st);
            && SameFrame(caller, back) && back.heap == st.heap && back.sites == st.sites
            && (forall g :: Global(g) in back.mem <==> Global(g) in st.mem)
            && forall g | Global(g) in st.mem :: back.mem[Global(g)] == st.mem[Global(g)]
  {
  }

  /**
   A call that comes back has run its body to an end; its value is what that left to
   return. The caller has its own variables as they were, and the globals, the heap and
   the profiles as the body left them.
   */
  lemma CallComesBack(p: Program, depth: nat, a: Activation, sel: Word, vs: seq<Word>, st: State) returns (end: Ctx)
    requires RunActivation(p, depth, a, sel, vs, st).Ret?
    ensures |vs| == |a.decl.params|
    ensures InterpBody(WorldAt(p, depth), InterpretedTable(a), a.decl.body,
                       Ctx(EntryState(a, sel, vs, Frameless(st)), 0, false, false, p.budget)) == Done(end)
    ensures var r := RunActivation(p, depth, a, sel, vs, st);
            && r.value == end.retVal && SameFrame(st, r.st)
            && r.st.heap == end.st.heap && r.st.sites == end.st.sites
            && (forall g :: Global(g) in r.st.mem <==> Global(g) in end.st.mem)
            && forall g | Global(g) in end.st.mem :: r.st.mem[Global(g)] == end.st.mem[Global(g)]
  {
    var c := Ctx(EntryState(a, sel, vs, Frameless(st)), 0, false, false, p.budget);
    end := InterpBody(WorldAt(p, depth), InterpretedTable(a), a.decl.body, c).c;
    BackInCaller(st, end.st);
  }

  /* ---- Frames through any nesting of calls ---- */

  /** Callees leave the variables of their callers alone. */
  ghost predicate KeepsFrames(w: World) {
    && (forall slot, st, obj, sel, vs ::
          w.invoke(slot, st, obj, sel, vs).Ret? ==> SameFrame(st, w.invoke(slot, st, obj, sel, vs).st))
    && (forall st, obj, vs :: w.closure(st, obj, vs).Ret? ==> SameFrame(st, w.closure(st, obj, vs).st))
    && (forall op, st, l, r :: w.overload(op, st, l, r).Ret? ==> SameFrame(st, w.overload(op, st, l, r).st))
  }

  lemma ActivationKeepsFrame(p: Program, depth: nat, a: Activation, sel: Word, vs: seq<Word>, st: State)
    ensures var r := RunActivation(p, depth, a, sel, vs, st); r.Ret? ==> SameFrame(st, r.st)
  {
    if RunActivation(p, depth, a, sel, vs, st).Ret? {
      var end := CallComesBack(p, depth, a, sel, vs, st);
    }
  }

  lemma InvokeKeepsFrame(p: Program, depth: nat, slot: nat, st: State, obj: Word, sel: string, vs: seq<Word>)
    requires KeepsFrames(p.base)
    ensures var r := Invoke(p, depth, slot, st, obj, sel, vs); r.Ret? ==> SameFrame(st, r.st)
  {
    var m := MethodBehind(p, slot, st.heap, obj, sel);
    if depth > 0 && m.Some? {
      ActivationKeepsFrame(p, depth - 1, MethodActivation(p, m.value, st.heap, obj), p.selector(sel), vs, st);
    }
  }

  lemma ClosureKeepsFrame(p: Program, depth: nat, st: State, obj: Word, vs: seq<Word>)
    requires KeepsFrames(p.base)
    ensures var r := InvokeClosure(p, depth, st, obj, vs); r.Ret? ==> SameFrame(st, r.st)
  {
    var d := ClosureBehind(p, st.heap, obj);
    if depth > 0 && d.Some? {
      ActivationKeepsFrame(p, depth - 1, ClosureActivation(d.value, obj), 0, vs, st);
    }
  }

  lemma OperatorKeepsFrame(p: Program, depth: nat, op: ArithOp, st: State, l: Word, r: Word)
    requires KeepsFrames(p.base)
    ensures var q := InvokeOperator(p, depth, op, st, l, r); q.Ret? ==> SameFrame(st, q.st)
  {
    var slot := OperatorSlot(p, op, st.heap, l);
    var m := MethodBehind(p, slot, st.heap, l, MethodName(op));
    if depth > 0 && slot != 0 && m.Some? {
      var a := MethodActivation(p, m.value, st.heap, l);
      ActivationKeepsFrame(p, depth - 1, a, p.selector(MethodName(op)), [r], st);
    }
  }

  lemma NestedCallsKeepFrames(p: Program, depth: nat)
    requires KeepsFrames(p.base)
    ensures KeepsFrames(WorldAt(p, depth))
  {
    var w := WorldAt(p, depth);
    forall slot, st, obj, sel, vs
      ensures w.invoke(slot, st, obj, sel, vs).Ret? ==> SameFrame(st, w.invoke(slot, st, obj, sel, vs).st)
    {
      InvokeKeepsFrame(p, depth, slot, st, obj, sel, vs);
    }
    forall st, obj, vs ensures w.closure(st, obj, vs).Ret? ==> SameFrame(st, w.closure(st, obj, vs).st) {
      ClosureKeepsFrame(p, depth, st, obj, vs);
    }
    forall op, st, l, r ensures w.overload(op, st, l, r).Ret? ==> SameFrame(st, w.overload(op, st, l, r).st) {
      OperatorKeepsFrame(p, depth, op, st, l, r);
    }
  }

  /** No closure literal, whose evaluation sets the variable of its name. */
  predicate NoLiterals(e: Expr)
    decreases e
  {
    match e
    case Binary(_, l, r) => NoLiterals(l) && NoLiterals(r)
    case MethodCall(_, callee, _, args) => NoLiterals(callee) && NoLiteralsIn(args)
    case ClosureCall(callee, args) => NoLiterals(callee) && NoLiteralsIn(args)
    case ClosureLiteral(_) => false
    case _ => true
  }

  predicate NoLiteralsIn(args: seq<Expr>)
    decreases args
  {
    args == [] || (NoLiterals(args[0]) && NoLiteralsIn(args[1..]))
  }

  /** However deep the calls of an expression go, the variables of the function it stands in keep their values. */
  lemma {:induction false} ExprKeepsFrame(w: World, tab: Table, e: Expr, st: State)
    requires KeepsFrames(w) && NoLiterals(e)
    ensures var r := EvalExpr(w, tab, e, st); r.Val? ==> SameFrame(st, r.st)
    decreases e, 0
  {
    match e
    case Binary(op, l, r) =>
      ExprKeepsFrame(w, tab, l, st);
      var q := EvalExpr(w, tab, l, st);
      if q.Val? {
        ExprKeepsFrame(w, tab, r, q.st);
      }
    case MethodCall(_, callee, _, args) =>
      ExprKeepsFrame(w, tab, callee, st);
      var q := EvalExpr(w, tab, callee, st);
      if q.Val? {
        ArgsKeepFrame(w, tab, args, q.st);
      }
    case ClosureCall(callee, args) =>
      ExprKeepsFrame(w, tab, callee, st);
      var q := EvalExpr(w, tab, callee, st);
      if q.Val? {
        ArgsKeepFrame(w, tab, args, q.st);
      }
    case _ =>
  }

  lemma {:induction false} ArgsKeepFrame(w: World, tab: Table, args: seq<Expr>, st: State)
    requires KeepsFrames(w) && NoLiteralsIn(args)
    ensures var r := EvalArgs(w, tab, args, st); r.Vals? ==> SameFrame(st, r.st)
    decreases args, 0
  {
    if args != [] {
      ExprKeepsFrame(w, tab, args[0], st);
      var q := EvalExpr(w, tab, args[0], st);
      if q.Val? {
        ArgsKeepFrame(w, tab, args[1..], q.st);
      }
    }
  }

  /** `func f(x) { e; return x; }` returns its argument, whatever `e` calls. */
  lemma ArgumentSurvives(
    p: Program, depth: nat, a: Activation, x: string, e: Expr, sel: Word, v: Word, st: State)
    requires a.isMethod && x !in a.own && x != "self" && x != "cmd"
    requires a.decl.params == [x] && a.decl.decls == [] && a.decl.body == [Evaluate(e), Return(VarRef(x))]
    requires KeepsFrames(p.base) && NoLiterals(e)
    ensures var r := RunActivation(p, depth, a, sel, [v], st); r.Ret? ==> r.value == v
  {
    if RunActivation(p, depth, a, sel, [v], st).Ret? {
      var end := CallComesBack(p, depth, a, sel, [v], st);
      var w, tab := WorldAt(p, depth), InterpretedTable(a);
      var start := EntryState(a, sel, [v], Frameless(st));
      var c := Ctx(start, 0, false, false, p.budget);
      NestedCallsKeepFrames(p, depth);
      ExprKeepsFrame(w, tab, e, start);
      CalleeStarts(a, sel, [v], st, Param(0));
      MethodAddress(a, x);
      ReturnsAfter(w, tab, e, x, c, a.decl.body);
    }
  }

  lemma ReturnsAfter(w: World, tab: Table, e: Expr, x: string, c: Ctx, body: seq<Stmt>)
    requires !c.isReturning && body == [Evaluate(e), Return(VarRef(x))] && EvalExpr(w, tab, e, c.st).Val?
    ensures var q := EvalExpr(w, tab, e, c.st);
            InterpBody(w, tab, body, c)
            == Done(c.(st := q.st, retVal := LookupSymbol(tab, q.st, x), isReturning := true))
  {
    var q := EvalExpr(w, tab, e, c.st);
    assert body == [Evaluate(e)] + [Return(VarRef(x))] && [Evaluate(e)][1..] == [];
    BodyInParts(w, tab, [Evaluate(e)], [Return(VarRef(x))], c);
    assert InterpBody(w, tab, [Evaluate(e)], c) == Done(c.(st := q.st));
    ReturnEndsBody(w, tab, VarRef(x), [], c.(st := q.st));
    assert [Return(VarRef(x))] + [] == [Return(VarRef(x))];
  }

  /* ---- Which body runs ---- */

  /** A method of the name has been found in the class of the receiver, and it is interpreted. */
  predicate Interprets(p: Program, heap: Heap, obj: Word, name: string, d: Closure) {
    var slot := p.base.lookup(ClassOf(heap, obj), name);
    obj != 0 && slot != 0 && slot in p.methods && p.methods[slot] == d
  }

  /**
   A method call at a site that has not been executed before evaluates receiver and
   arguments and runs the method that the receiver's class has for the name, on that
   receiver; the site then assumes the class and has the method cached.
   */
  lemma MethodCallRuns(
    p: Program, depth: nat, tab: Table, site: nat, callee: Expr, sel: string, args: seq<Expr>, st: State,
    obj: Word, st1: State, vs: seq<Word>, st2: State, d: Closure)
    requires depth > 0 && EvalExpr(WorldAt(p, depth), tab, callee, st) == Val(obj, st1)
    requires EvalArgs(WorldAt(p, depth), tab, args, st1) == Vals(vs, st2)
    requires site !in st2.sites && ClassOf(st2.heap, obj) != 0 && Interprets(p, st2.heap, obj, sel, d)
    ensures var cls := ClassOf(st2.heap, obj);
            var ivars := p.base.ivarNames(cls);
            var st3 := SetSite(st2, site, Site(cls, 0, 0, p.base.lookup(cls, sel)));
            EvalExpr(WorldAt(p, depth), tab, MethodCall(site, callee, sel, args), st)
            == match RunActivation(p, depth - 1, Activation(d, true, obj, ivars, ivars), p.selector(sel), vs, st3)
               case Ret(v, st4) => Val(v, st4)
               case Fault => EvalFault
  {
  }

  /**
   A call through a cached slot, even one that another class has left there, runs the
   method that the receiver's class has for the name: the trampoline looks it up again.
   */
  lemma CachedCallRuns(
    p: Program, depth: nat, tab: Table, site: nat, callee: Expr, sel: string, args: seq<Expr>, st: State,
    obj: Word, st1: State, vs: seq<Word>, st2: State, d: Closure)
    requires depth > 0 && EvalExpr(WorldAt(p, depth), tab, callee, st) == Val(obj, st1)
    requires EvalArgs(WorldAt(p, depth), tab, args, st1) == Vals(vs, st2)
    requires Interprets(p, st2.heap, obj, sel, d) && site in st2.sites
    requires var s := st2.sites[site];
             s.assumed == ClassOf(st2.heap, obj) && s.cached != 0 && s.cached in p.methods
    ensures var cls := ClassOf(st2.heap, obj);
            var ivars := p.base.ivarNames(cls);
            var s := st2.sites[site];
            var st3 := SetSite(st2, site, Site(s.assumed, s.alternative, 0, s.cached));
            EvalExpr(WorldAt(p, depth), tab, MethodCall(site, callee, sel, args), st)
            == match RunActivation(p, depth - 1, Activation(d, true, obj, ivars, ivars), p.selector(sel), vs, st3)
               case Ret(v, st4) => Val(v, st4)
               case Fault => EvalFault
  {
  }

  /** An operator on anything but two numbers runs the left operand's method of its name. */
  lemma OperatorCalls(p: Program, depth: nat, op: ArithOp, st: State, l: Word, r: Word, d: Closure, name: string)
    requires depth > 0 && Interprets(p, st.heap, l, name, d) && (!IsInteger(l) || !IsInteger(r))
    requires op.Add? ==> name == "add"
    requires op.Sub? ==> name == "sub"
    requires op.Mul? ==> name == "mul"
    requires op.Div? ==> name == "div"
    ensures var ivars := p.base.ivarNames(ClassOf(st.heap, l));
            PerformOp(WorldAt(p, depth), Arithmetic(op), l, r, st)
            == match RunActivation(p, depth - 1, Activation(d, true, l, ivars, ivars), p.selector(name), [r], st)
               case Ret(v, st1) => Val(v, st1)
               case Fault => EvalFault
  {
  }

  /** A closure object that a literal has made is called on the literal's own tree. */
  lemma ClosureCallRuns(
    p: Program, depth: nat, tab: Table, callee: Expr, args: seq<Expr>, st: State, c: Closure,
    o: Word, st1: State, vs: seq<Word>, st2: State, tree: Word)
    requires depth > 0 && EvalExpr(WorldAt(p, depth), tab, callee, st) == Val(o, st1) && o != 0
    requires EvalArgs(WorldAt(p, depth), tab, args, st1) == Vals(vs, st2)
    requires o in st2.heap && ClosureHeader(p.base, c) <= st2.heap[o]
    requires p.base.closurePointers(c).1 == tree && tree in p.closures && p.closures[tree] == c
    ensures EvalExpr(WorldAt(p, depth), tab, ClosureCall(callee, args), st)
         == match RunActivation(p, depth - 1, Activation(c, false, o, [], []), 0, vs, st2)
            case Ret(v, st3) => Val(v, st3)
            case Fault => EvalFault
  {
    assert st2.heap[o][3] == ClosureHeader(p.base, c)[3] == tree;
  }
}
