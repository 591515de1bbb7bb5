/**
 The interpreter as it runs: one context object whose state and flags the tree
 walk updates in place, through any nesting of interpreted calls, and the search
 that resumes a body in the middle.

 Each method says two things. Its balance: a call, however deep the calls inside
 it go, gives the context back as it found it, except that the return value is
 null once any call has been made. And its result, which is that of the functions
 of module Interpreter in the world where interpreted callees are runs of their
 bodies; a return value left over from an earlier side exit can spoil the result
 only if calls are made.
 */
module InterpreterContext {
  import opened Tagged
  import opened Ast
  import opened Runtime
  import opened Interpreter
  import opened SearchLemmas
  import opened Frames
  import opened Nesting

  /** How a method ended: normally, on a failed assertion or trap, or with its gas used up. */
  datatype Status = Going | Stuck | Spent

  /* ---- Calls inside closure literals ---- */

  lemma {:induction false} NestedExprIsSearched(e: Expr)
    ensures NestedExpr(e) <= SearchedExpr(e)
    decreases e
  {
    match e
    case Binary(_, l, r) =>
      NestedExprIsSearched(l);
      NestedExprIsSearched(r);
    case MethodCall(_, callee, _, _) => NestedExprIsSearched(callee);
    case ClosureCall(callee, _) => NestedExprIsSearched(callee);
    case _ =>
  }

  lemma {:induction false} NestedIsSearched(ss: seq<Stmt>)
    ensures NestedBody(ss) <= SearchedBody(ss)
    decreases ss
  {
    if ss != [] {
      NestedIsSearched(ss[1..]);
      match ss[0]
      case Decl(_, None) =>
      case Decl(_, Some(e)) => NestedExprIsSearched(e);
      case Assign(_, e) => NestedExprIsSearched(e);
      case Return(e) => NestedExprIsSearched(e);
      case Evaluate(e) => NestedExprIsSearched(e);
      case If(c, b) =>
        NestedExprIsSearched(c);
        NestedIsSearched(b);
      case While(c, b) =>
        NestedExprIsSearched(c);
        NestedIsSearched(b);
    }
  }

  lemma {:induction false} SearchedAt(ss: seq<Stmt>, i: nat)
    requires i < |ss|
    ensures SearchedStmt(ss[i]) <= SearchedBody(ss) && NestedStmt(ss[i]) <= NestedBody(ss)
    decreases i
  {
    if i > 0 {
      SearchedAt(ss[1..], i - 1);
    }
  }

  class Context {
    const program: Program
    var st: State
    var symbols: seq<Table>
    var retVal: Word
    var isReturning: bool
    var astNodeFound: bool
    var gas: nat
    /** The interpreted calls made so far. */
    ghost var calls: nat

    constructor (program: Program, st: State, gas: nat)
      ensures Snapshot() == Ctx(st, 0, false, false, gas) && symbols == [] && this.program == program && Clear()
    {
      this.program, this.st, this.gas := program, st, gas;
      symbols, retVal, isReturning, astNodeFound := [], 0, false, false;
    }

    function Snapshot(): Ctx
      reads this
    {
      Ctx(st, retVal, isReturning, astNodeFound, gas)
    }

    /** The context after a method, in the form the specification functions use. */
    function After(s: Status): Run
      reads this
    {
      match s
      case Going => Done(Snapshot())
      case Stuck => Crashed
      case Spent => OutOfGas
    }

    function AfterSearch(s: Status, v: Word): Search
      reads this
    {
      match s
      case Going => At(v, Snapshot())
      case Stuck => SearchCrashed
      case Spent => SearchOutOfGas
    }

    function AfterEvaluation(s: Status, v: Word): EvalResult
      reads this
    {
      if s == Going then Val(v, st) else EvalFault
    }

    predicate Scoped()
      reads this
    {
      symbols != []
    }

    function Top(): Table
      requires Scoped()
      reads this
    {
      symbols[|symbols| - 1]
    }

    /** The world that code sees which may still go `depth` interpreted calls deep. */
    function Reach(depth: nat): World {
      WorldAt(program, depth)
    }

    /* ---- Balance ---- */

    /** No return value is left over, and none is on its way. */
    predicate Clear()
      reads this
    {
      retVal == 0 && !isReturning
    }

    /** What calls leave of the return value: nothing, and without a call everything. */
    twostate predicate Cleared()
      reads this
    {
      && calls >= old(calls)
      && if calls == old(calls) then retVal == old(retVal) && isReturning == old(isReturning) else Clear()
    }

    /** What evaluating an expression leaves of the context. */
    twostate predicate Balanced()
      reads this
    {
      symbols == old(symbols) && astNodeFound == old(astNodeFound) && gas == old(gas) && Cleared()
    }

    /** Unless statements have returned a value, the return value is the old one, or null after a call. */
    twostate predicate Lapsed()
      reads this
    {
      !old(isReturning) && !isReturning ==> retVal == if calls == old(calls) then old(retVal) else 0
    }

    /** What executing statements leaves of the context. */
    twostate predicate Kept()
      reads this
    {
      symbols == old(symbols) && astNodeFound == old(astNodeFound) && gas <= old(gas) && Lapsed()
    }

    /** What a search leaves of the context; one that has not found its call has executed nothing. */
    twostate predicate Searched()
      reads this
    {
      && symbols == old(symbols) && gas <= old(gas)
      && (old(astNodeFound) ==> astNodeFound)
      && (!astNodeFound ==> calls == old(calls) && retVal == old(retVal) && isReturning == old(isReturning))
    }

    /** A search that has found nothing yet, for a call that belongs to this function. */
    predicate Ready(id: nat, nested: set<nat>)
      reads this
    {
      Clear() && !astNodeFound && id !in nested
    }

    /** The same, or the call has been found. */
    predicate Resumable(id: nat, nested: set<nat>)
      reads this
    {
      Clear() && (astNodeFound || id !in nested)
    }

    /** A search finds nothing outside what it looks at; in the function's own expressions it only evaluates. */
    twostate predicate Located(id: nat, searched: set<nat>, nested: set<nat>)
      reads this
    {
      (id !in searched ==> !astNodeFound) && (id !in nested ==> Cleared())
    }

    /** No interpreted callee can be reached at depth 0. */
    twostate predicate Counted(depth: nat)
      reads this
    {
      calls >= old(calls) && (depth == 0 ==> calls == old(calls))
    }

    method PushSymbols(t: Table)
      modifies this`symbols
      ensures symbols == old(symbols) + [t] && Top() == t
    {
      symbols := symbols + [t];
    }

    method PopSymbols()
      requires Scoped()
      modifies this`symbols
      ensures symbols == old(symbols)[..|old(symbols)| - 1]
    {
      symbols := symbols[..|symbols| - 1];
    }

    method SetVariable(name: string, v: Word)
      requires Scoped()
      modifies this`st
      ensures st == SetSymbol(Top(), old(st), name, v)
    {
      var a := Resolve(Top(), name);
      st := Store(st, if a.Null? then Global(name) else a, v);
    }

    /* ---- Expressions ---- */

    method Evaluate(depth: nat, e: Expr) returns (s: Status, v: Word)
      requires Scoped()
      modifies this
      ensures s != Spent && (s == Going ==> Balanced()) && Counted(depth)
      ensures calls == old(calls) || old(Clear()) ==>
                AfterEvaluation(s, v) == EvalExpr(Reach(depth), old(Top()), e, old(st))
      decreases depth, gas, e, 0
    {
      s, v := Going, 0;
      match e {
        case Number(n) => v := Encode(n);
        case VarRef(x) => v := LookupSymbol(Top(), st, x);
        case Binary(op, l, r) =>
          var lv;
          s, lv := Evaluate(depth, l);
          if s == Going {
            s, v := FinishBinary(depth, op, lv, r);
          }
        case MethodCall(site, callee, sel, args) =>
          var obj;
          s, obj := Evaluate(depth, callee);
          if s == Going {
            s, v := DoCall(depth, site, sel, args, obj);
          }
        case ClosureCall(callee, args) =>
          var obj;
          s, obj := Evaluate(depth, callee);
          if s == Going {
            s, v := DoClosureCall(depth, args, obj);
          }
        case NewObject(cls) => s, v := Finish(EvalNew(program.base, cls, st));
        case ClosureLiteral(c) => s, v := Finish(EvalClosure(program.base, Top(), c, st));
      }
    }

    /** With the left operand evaluated: the right one, and the operator. */
    method FinishBinary(depth: nat, op: BinOp, lv: Word, r: Expr) returns (s: Status, v: Word)
      requires Scoped()
      modifies this
      ensures s != Spent && (s == Going ==> Balanced()) && Counted(depth)
      ensures calls == old(calls) || old(Clear()) ==>
                AfterEvaluation(s, v) == (match EvalExpr(Reach(depth), old(Top()), r, old(st))
                                          case EvalFault => EvalFault
                                          case Val(rv, st1) => PerformOp(Reach(depth), op, lv, rv, st1))
      decreases depth, gas, r, 1
    {
      var rv;
      v := 0;
      s, rv := Evaluate(depth, r);
      if s == Going {
        s, v := Operate(depth, op, lv, rv);
      }
    }

    method Finish(r: EvalResult) returns (s: Status, v: Word)
      modifies this`st
      ensures s != Spent && AfterEvaluation(s, v) == r
    {
      match r {
        case Val(v1, st1) => s, v, st := Going, v1, st1;
        case EvalFault => s, v := Stuck, 0;
      }
    }

    /** An operator on evaluated operands, which may call the left one's method. */
    method Operate(depth: nat, op: BinOp, l: Word, r: Word) returns (s: Status, v: Word)
      modifies this
      ensures s != Spent && (s == Going ==> Balanced()) && Counted(depth)
      ensures calls == old(calls) || old(Clear()) ==>
                AfterEvaluation(s, v) == PerformOp(Reach(depth), op, l, r, old(st))
      decreases depth, -1, 1
    {
      match op {
        case Comparison(c) => s, v := Going, Bool(ShiftedCompare(c, l, r));
        case Arithmetic(a) =>
          if IsInteger(l) && IsInteger(r) {
            s, v := Finish(FromChecked(TaggedArith(a, l, r), st));
          } else {
            s, v := CallOperator(depth, a, l, r);
          }
      }
    }

    method CallOperator(depth: nat, op: ArithOp, l: Word, r: Word) returns (s: Status, v: Word)
      modifies this
      ensures s != Spent && (s == Going ==> Balanced()) && Counted(depth)
      ensures calls == old(calls) || old(Clear()) ==>
                AfterEvaluation(s, v) == FromCall(InvokeOperator(program, depth, op, old(st), l, r))
      decreases depth, -1, 0
    {
      var slot := OperatorSlot(program, op, st.heap, l);
      var m := MethodBehind(program, slot, st.heap, l, MethodName(op));
      if depth == 0 || slot == 0 || m.None? {
        s, v := Finish(FromCall(program.base.overload(op, st, l, r)));
      } else {
        var a := MethodActivation(program, m.value, st.heap, l);
        s, v := InterpretActivation(depth - 1, a, program.selector(MethodName(op)), [r]);
      }
    }

    /** The argument loop of a call. */
    method EvaluateArgs(depth: nat, args: seq<Expr>) returns (s: Status, vs: seq<Word>)
      requires Scoped()
      modifies this
      ensures s != Spent && (s == Going ==> Balanced()) && Counted(depth)
      ensures calls == old(calls) || old(Clear()) ==>
                EvalArgs(Reach(depth), old(Top()), args, old(st)) == if s == Going then Vals(vs, st) else ArgsFault
      decreases depth, gas, args, 0
    {
      var i := 0;
      s, vs := Going, [];
      while i < |args|
        invariant 0 <= i <= |args| && s == Going && Balanced() && Counted(depth)
        invariant calls == old(calls) || old(Clear()) ==>
                    EvalArgs(Reach(depth), old(Top()), args, old(st))
                    == Prefixed(vs, EvalArgs(Reach(depth), Top(), args[i..], st))
      {
        var v;
        s, v := Evaluate(depth, args[i]);
        if s != Going {
          return;
        }
        assert args[i..][1..] == args[i + 1..];
        ghost var rest := EvalArgs(Reach(depth), Top(), args[i + 1..], st);
        PrefixedTwice(vs, v, rest);
        vs := vs + [v];
        i := i + 1;
      }
      assert vs + [] == vs;
    }

    /** A method call: arguments, then the call-site profile, then the call through the slot it decides on. */
    method DoCall(depth: nat, site: nat, sel: string, args: seq<Expr>, obj: Word) returns (s: Status, v: Word)
      requires Scoped()
      modifies this
      ensures s != Spent && (s == Going ==> Balanced()) && Counted(depth)
      ensures calls == old(calls) || old(Clear()) ==>
                AfterEvaluation(s, v) == CallMethod(Reach(depth), old(Top()), site, sel, args, obj, old(st))
      decreases depth, gas, args, 1
    {
      if obj == 0 {
        return Stuck, 0;
      }
      var vs;
      s, vs := EvaluateArgs(depth, args);
      if s != Going {
        return Stuck, 0;
      }
      s, v := CallThroughSite(depth, site, sel, obj, vs);
    }

    method CallThroughSite(depth: nat, site: nat, sel: string, obj: Word, vs: seq<Word>) returns (s: Status, v: Word)
      modifies this
      ensures s != Spent && (s == Going ==> Balanced()) && Counted(depth)
      ensures calls == old(calls) || old(Clear()) ==>
                AfterEvaluation(s, v) == Dispatch(Reach(depth), site, sel, obj, vs, old(st))
      decreases depth, -1, 1
    {
      var cls := ClassOf(st.heap, obj);
      var slot;
      match Profile(SiteOf(st, site), cls) {
        case Cached(p) =>
          slot, st := p.cached, SetSite(st, site, p);
        case Lookup(p, _) =>
          slot := program.base.lookup(cls, sel);
          if slot == 0 {
            return Stuck, 0;
          }
          st := SetSite(st, site, p.(cached := slot));
      }
      s, v := CallSlot(depth, slot, obj, sel, vs);
    }

    method CallSlot(depth: nat, slot: nat, obj: Word, sel: string, vs: seq<Word>) returns (s: Status, v: Word)
      modifies this
      ensures s != Spent && (s == Going ==> Balanced()) && Counted(depth)
      ensures calls == old(calls) || old(Clear()) ==>
                AfterEvaluation(s, v) == FromCall(Invoke(program, depth, slot, old(st), obj, sel, vs))
      decreases depth, -1, 0
    {
      var m := MethodBehind(program, slot, st.heap, obj, sel);
      if depth == 0 || m.None? {
        s, v := Finish(FromCall(program.base.invoke(slot, st, obj, sel, vs)));
      } else {
        var a := MethodActivation(program, m.value, st.heap, obj);
        s, v := InterpretActivation(depth - 1, a, program.selector(sel), vs);
      }
    }

    method DoClosureCall(depth: nat, args: seq<Expr>, obj: Word) returns (s: Status, v: Word)
      requires Scoped()
      modifies this
      ensures s != Spent && (s == Going ==> Balanced()) && Counted(depth)
      ensures calls == old(calls) || old(Clear()) ==>
                AfterEvaluation(s, v) == CallClosure(Reach(depth), old(Top()), args, obj, old(st))
      decreases depth, gas, args, 1
    {
      if obj == 0 {
        return Stuck, 0;
      }
      var vs;
      s, vs := EvaluateArgs(depth, args);
      if s != Going {
        return Stuck, 0;
      }
      s, v := CallClosureObject(depth, obj, vs);
    }

    method CallClosureObject(depth: nat, obj: Word, vs: seq<Word>) returns (s: Status, v: Word)
      modifies this
      ensures s != Spent && (s == Going ==> Balanced()) && Counted(depth)
      ensures calls == old(calls) || old(Clear()) ==>
                AfterEvaluation(s, v) == FromCall(InvokeClosure(program, depth, old(st), obj, vs))
      decreases depth, -1, 0
    {
      var d := ClosureBehind(program, st.heap, obj);
      if depth == 0 || d.None? {
        s, v := Finish(FromCall(program.base.closure(st, obj, vs)));
      } else {
        s, v := InterpretActivation(depth - 1, ClosureActivation(d.value, obj), 0, vs);
      }
    }

    /* ---- Interpreted calls ---- */

    /**
     Running a body as a call: the table is pushed, the return value is taken out
     and cleared, and the table is popped, so that every call is balanced. Without
     an explicit `return` the value is what the context held before, if no call was
     made on the way, and null otherwise.
     */
    method InterpretCall(depth: nat, table: Table, body: seq<Stmt>) returns (s: Status, v: Word, ghost returned: bool)
      modifies this
      ensures calls > old(calls)
      ensures s == Going ==>
                symbols == old(symbols) && astNodeFound == old(astNodeFound) && gas <= old(gas) && Clear()
      ensures calls == old(calls) + 1 || old(Clear()) ==>
                match InterpBody(Reach(depth), table, body, old(Snapshot()))
                case Done(c) =>
                  s == Going && v == c.retVal && returned == c.isReturning
                  && Snapshot() == c.(retVal := 0, isReturning := false)
                case Crashed => s == Stuck
                case OutOfGas => s == Spent
      ensures s == Going && !returned ==> v == if calls == old(calls) + 1 then old(retVal) else 0
      decreases depth, gas
    {
      calls := calls + 1;
      PushSymbols(table);
      s := InterpretBody(depth, body);
      v, returned := retVal, isReturning;
      retVal, isReturning := 0, false;
      if s == Going {
        PopSymbols();
      }
    }

    /** A call of an interpreted function: its own frame and loop budget, and the caller's back afterwards. */
    method InterpretActivation(depth: nat, a: Activation, sel: Word, vs: seq<Word>) returns (s: Status, v: Word)
      modifies this
      ensures s != Spent && calls >= old(calls)
      ensures s == Going ==> Balanced() && calls > old(calls) && SameFrame(old(st), st)
      ensures calls == old(calls) || old(Clear()) ==>
                AfterEvaluation(s, v) == FromCall(RunActivation(program, depth, a, sel, vs, old(st)))
      decreases depth
    {
      if |vs| != |a.decl.params| {
        return Stuck, 0;
      }
      var caller, passes := st, gas;
      st, gas := EntryState(a, sel, vs, Frameless(st)), program.budget;
      InterpBodyIgnoresFound(Reach(depth), InterpretedTable(a), a.decl.body, Snapshot().(found := false), astNodeFound);
      ghost var returned;
      s, v, returned := InterpretCall(depth, InterpretedTable(a), a.decl.body);
      if s == Going {
        st, gas := BackIn(caller, st), passes;
      } else {
        s := Stuck;
      }
    }

    /* ---- Statements ---- */

    /** The statement loop: it stops at a `return`. */
    method InterpretBody(depth: nat, ss: seq<Stmt>) returns (s: Status)
      requires Scoped()
      modifies this
      ensures (s == Going ==> Kept() && (old(isReturning) ==> isReturning)) && Counted(depth)
      ensures calls == old(calls) || old(Clear()) ==>
                After(s) == InterpBody(Reach(depth), old(Top()), ss, old(Snapshot()))
      decreases depth, gas, ss, 0
    {
      var i := 0;
      s := Going;
      while i < |ss|
        invariant 0 <= i <= |ss| && s == Going && Kept() && Counted(depth)
        invariant old(isReturning) ==> isReturning
        invariant calls == old(calls) || old(Clear()) ==>
                    InterpBody(Reach(depth), Top(), ss, old(Snapshot()))
                    == InterpBody(Reach(depth), Top(), ss[i..], Snapshot())
      {
        if isReturning {
          return;
        }
        s := InterpretStmt(depth, ss[i]);
        if s != Going {
          return;
        }
        assert ss[i..][1..] == ss[i + 1..];
        i := i + 1;
      }
    }

    method InterpretStmt(depth: nat, t: Stmt) returns (s: Status)
      requires Scoped()
      modifies this
      ensures (s == Going ==> Kept()) && Counted(depth)
      ensures calls == old(calls) || old(Clear()) ==>
                After(s) == InterpStmt(Reach(depth), old(Top()), t, old(Snapshot()))
      decreases depth, gas, t, 4
    {
      s := Going;
      match t {
        case Decl(x, None) => SetVariable(x, 0);
        case Decl(x, Some(e)) => s := InterpretAssign(depth, x, e);
        case Assign(x, e) => s := InterpretAssign(depth, x, e);
        case Return(e) =>
          var v;
          s, v := Evaluate(depth, e);
          if s == Going {
            retVal, isReturning := v, true;
          }
        case Evaluate(e) =>
          var v;
          s, v := Evaluate(depth, e);
        case If(cond, body) =>
          var v;
          s, v := Evaluate(depth, cond);
          if s == Going && Truthy(v) {
            s := InterpretBody(depth, body);
          }
        case While(cond, body) => s := InterpretLoop(depth, cond, body);
      }
    }

    method InterpretAssign(depth: nat, x: string, e: Expr) returns (s: Status)
      requires Scoped()
      modifies this
      ensures (s == Going ==> Balanced()) && Counted(depth)
      ensures calls == old(calls) || old(Clear()) ==>
                After(s) == Assigned(old(Top()), x, EvalExpr(Reach(depth), old(Top()), e, old(st)), old(Snapshot()))
      decreases depth, gas, e, 1
    {
      var v;
      s, v := Evaluate(depth, e);
      if s == Going {
        SetVariable(x, v);
      }
    }

    /** The while loop of the source, with one unit of gas for each execution of the body. */
    method InterpretLoop(depth: nat, cond: Expr, body: seq<Stmt>) returns (s: Status)
      requires Scoped()
      modifies this
      ensures (s == Going ==> Kept()) && Counted(depth)
      ensures old(isReturning) ==> isReturning && calls == old(calls)
      ensures calls == old(calls) || old(Clear()) ==>
                After(s) == InterpLoop(Reach(depth), old(Top()), cond, body, old(Snapshot()))
      decreases depth, gas, While(cond, body), 3
    {
      s := Going;
      var again := true;
      while !isReturning && again
        invariant (s == Going ==> Kept()) && Counted(depth)
        invariant again ==> s == Going
        invariant old(isReturning) ==> isReturning && calls == old(calls)
        invariant calls == old(calls) || old(Clear()) ==>
                    InterpLoop(Reach(depth), old(Top()), cond, body, old(Snapshot()))
                    == if again then InterpLoop(Reach(depth), old(Top()), cond, body, Snapshot()) else After(s)
        decreases if again then gas + 1 else 0
      {
        LoopUnfolds(Reach(depth), Top(), cond, body, EvalExpr(Reach(depth), Top(), cond, st), Snapshot());
        s, again := InterpretIteration(depth, cond, body);
      }
    }

    /** One test of the condition, and the body if it holds. */
    method InterpretIteration(depth: nat, cond: Expr, body: seq<Stmt>) returns (s: Status, again: bool)
      requires Scoped() && !isReturning
      modifies this
      ensures (s == Going ==> Kept()) && Counted(depth)
      ensures again ==> s == Going && gas < old(gas)
      ensures calls == old(calls) || old(Clear()) ==>
                InterpLoop(Reach(depth), old(Top()), cond, body, old(Snapshot()))
                == if again then InterpLoop(Reach(depth), old(Top()), cond, body, Snapshot()) else After(s)
      decreases depth, gas, While(cond, body), 2
    {
      LoopUnfolds(Reach(depth), Top(), cond, body, EvalExpr(Reach(depth), Top(), cond, st), Snapshot());
      var v;
      again := false;
      s, v := Evaluate(depth, cond);
      if s == Going && Truthy(v) {
        s, again := MakePass(depth, cond, body);
      }
    }

    /** The body of an iteration whose condition held. */
    method MakePass(depth: nat, cond: Expr, body: seq<Stmt>) returns (s: Status, again: bool)
      requires Scoped()
      modifies this
      ensures (s == Going ==> Kept()) && Counted(depth)
      ensures if again then s == Going && gas < old(gas) else s != Going
      ensures old(isReturning) && again ==> isReturning
      ensures calls == old(calls) || old(Clear()) ==>
                PassAndLoop(Reach(depth), old(Top()), cond, body, old(Snapshot()))
                == if again then InterpLoop(Reach(depth), old(Top()), cond, body, Snapshot()) else After(s)
      decreases depth, gas, While(cond, body), 1
    {
      if gas == 0 {
        return Spent, false;
      }
      gas := gas - 1;
      s := InterpretBody(depth, body);
      again := s == Going;
    }

    /* ---- The search ---- */

    method SearchExpr(depth: nat, e: Expr, id: nat) returns (s: Status, v: Word)
      requires Scoped()
      modifies this
      ensures (s == Going ==> Searched()) && Counted(depth)
      ensures s == Going && !old(astNodeFound) ==> Located(id, SearchedExpr(e), NestedExpr(e))
      ensures calls == old(calls) || old(Ready(id, NestedExpr(e))) ==>
                AfterSearch(s, v) == SkipExpr(Reach(depth), old(Top()), e, id, old(Snapshot()))
      decreases depth, gas, e, 5
    {
      s, v := Going, 0;
      match e {
        case Number(n) => v := Encode(n);
        case VarRef(x) => v := LookupSymbol(Top(), st, x);
        case Binary(op, l, r) => s, v := SearchBinary(depth, op, l, r, id);
        case MethodCall(_, _, _, _) => s, v := SearchMethodCall(depth, e, id);
        case ClosureCall(_, _) => s, v := SearchClosureCall(depth, e, id);
        case NewObject(cls) => s, v := Finish(EvalNew(program.base, cls, st));
        case ClosureLiteral(closure) =>
          NestedIsSearched(closure.body);
          s := SearchBody(depth, closure.body, id);
      }
    }

    method SearchMethodCall(depth: nat, e: Expr, id: nat) returns (s: Status, v: Word)
      requires Scoped() && e.MethodCall?
      modifies this
      ensures (s == Going ==> Searched()) && Counted(depth)
      ensures s == Going && !old(astNodeFound) ==> Located(id, SearchedExpr(e), NestedExpr(e))
      ensures calls == old(calls) || old(Ready(id, NestedExpr(e))) ==>
                AfterSearch(s, v) == SkipExpr(Reach(depth), old(Top()), e, id, old(Snapshot()))
      decreases depth, gas, e, 4
    {
      SkipMethodCallUnfolds(Reach(depth), Top(), e.site, e.callee, e.selector, e.args, id, Snapshot());
      var obj;
      v := 0;
      s, obj := SearchExpr(depth, e.callee, id);
      if s == Going && (astNodeFound || e.site == id) {
        astNodeFound := true;
        s, v := DoCall(depth, e.site, e.selector, e.args, obj);
      }
    }

    method SearchClosureCall(depth: nat, e: Expr, id: nat) returns (s: Status, v: Word)
      requires Scoped() && e.ClosureCall?
      modifies this
      ensures (s == Going ==> Searched()) && Counted(depth)
      ensures s == Going && !old(astNodeFound) ==> Located(id, SearchedExpr(e), NestedExpr(e))
      ensures calls == old(calls) || old(Ready(id, NestedExpr(e))) ==>
                AfterSearch(s, v) == SkipExpr(Reach(depth), old(Top()), e, id, old(Snapshot()))
      decreases depth, gas, e, 4
    {
      var obj;
      v := 0;
      s, obj := SearchExpr(depth, e.callee, id);
      if s == Going && astNodeFound {
        s, v := DoClosureCall(depth, e.args, obj);
      }
    }

    method SearchBinary(depth: nat, op: BinOp, l: Expr, r: Expr, id: nat) returns (s: Status, v: Word)
      requires Scoped()
      modifies this
      ensures (s == Going ==> Searched()) && Counted(depth)
      ensures s == Going && !old(astNodeFound) ==>
                Located(id, SearchedExpr(Binary(op, l, r)), NestedExpr(Binary(op, l, r)))
      ensures calls == old(calls) || old(Ready(id, NestedExpr(Binary(op, l, r)))) ==>
                AfterSearch(s, v) == SkipExpr(Reach(depth), old(Top()), Binary(op, l, r), id, old(Snapshot()))
      decreases depth, gas, Binary(op, l, r), 4
    {
      SkipBinaryUnfolds(Reach(depth), Top(), op, l, r, id, Snapshot());
      var lv;
      v := 0;
      s, lv := SearchExpr(depth, l, id);
      if s == Going {
        if astNodeFound {
          s, v := FinishBinary(depth, op, lv, r);
        } else {
          s, v := SearchRight(depth, op, r, id);
        }
      }
    }

    /** The call may be in the right operand: the operator is then applied with null on the left. */
    method SearchRight(depth: nat, op: BinOp, r: Expr, id: nat) returns (s: Status, v: Word)
      requires Scoped()
      modifies this
      ensures (s == Going ==> Searched()) && Counted(depth)
      ensures s == Going && !old(astNodeFound) ==> Located(id, SearchedExpr(r), NestedExpr(r))
      ensures calls == old(calls) || old(Ready(id, NestedExpr(r))) ==>
                AfterSearch(s, v) == (match SkipExpr(Reach(depth), old(Top()), r, id, old(Snapshot()))
                                      case At(rv, c) =>
                                        if c.found then Continue(PerformOp(Reach(depth), op, 0, rv, c.st), c)
                                        else At(0, c)
                                      case q => q)
      decreases depth, gas, r, 6
    {
      var rv;
      v := 0;
      s, rv := SearchExpr(depth, r, id);
      if s == Going && astNodeFound {
        s, v := Operate(depth, op, 0, rv);
      }
    }

    /** The search of a body: statements before the node are searched, those after it interpreted. */
    method SearchBody(depth: nat, ss: seq<Stmt>, id: nat) returns (s: Status)
      requires Scoped()
      modifies this
      ensures (s == Going ==> Searched() && (old(isReturning) ==> isReturning)) && Counted(depth)
      ensures s == Going && !old(astNodeFound) && id !in SearchedBody(ss) ==> !astNodeFound
      ensures s == Going && (old(astNodeFound) || id !in NestedBody(ss)) ==> Lapsed()
      ensures calls == old(calls) || old(Resumable(id, NestedBody(ss))) ==>
                After(s) == SkipBody(Reach(depth), old(Top()), ss, id, old(Snapshot()))
      decreases depth, gas, ss, 0
    {
      var i := 0;
      s := Going;
      while i < |ss|
        invariant 0 <= i <= |ss| && s == Going && Searched() && Counted(depth)
        invariant old(isReturning) ==> isReturning
        invariant !old(astNodeFound) && id !in SearchedBody(ss) ==> !astNodeFound
        invariant old(astNodeFound) || id !in NestedBody(ss) ==> Lapsed()
        invariant calls == old(calls) || old(Resumable(id, NestedBody(ss))) ==>
                    SkipBody(Reach(depth), Top(), ss, id, old(Snapshot()))
                    == SkipBody(Reach(depth), Top(), ss[i..], id, Snapshot())
      {
        if isReturning {
          return;
        }
        SearchedAt(ss, i);
        s := SearchNext(depth, ss[i], id);
        if s != Going {
          return;
        }
        assert ss[i..][1..] == ss[i + 1..];
        i := i + 1;
      }
    }

    /** One statement of a body: interpreted if the node has been found. */
    method SearchNext(depth: nat, t: Stmt, id: nat) returns (s: Status)
      requires Scoped() && !isReturning
      modifies this
      ensures (s == Going ==> Searched()) && Counted(depth)
      ensures s == Going && !old(astNodeFound) && id !in SearchedStmt(t) ==> !astNodeFound
      ensures s == Going && (old(astNodeFound) || id !in NestedStmt(t)) ==> Lapsed()
      ensures calls == old(calls) || old(Resumable(id, NestedStmt(t))) ==>
                After(s) == if old(astNodeFound) then InterpStmt(Reach(depth), old(Top()), t, old(Snapshot()))
                            else SkipStmt(Reach(depth), old(Top()), t, id, old(Snapshot()))
      decreases depth, gas, t, 8
    {
      if astNodeFound {
        s := InterpretStmt(depth, t);
      } else {
        s := SearchStmt(depth, t, id);
      }
    }

    method SearchStmt(depth: nat, t: Stmt, id: nat) returns (s: Status)
      requires Scoped() && !astNodeFound
      modifies this
      ensures (s == Going ==> Searched()) && Counted(depth)
      ensures s == Going && id !in SearchedStmt(t) ==> !astNodeFound
      ensures s == Going && id !in NestedStmt(t) ==> Lapsed()
      ensures calls == old(calls) || old(Ready(id, NestedStmt(t))) ==>
                After(s) == SkipStmt(Reach(depth), old(Top()), t, id, old(Snapshot()))
      decreases depth, gas, t, 7
    {
      s := Going;
      match t {
        case Decl(_, None) =>
        case Decl(x, Some(e)) => s := SearchAssign(depth, x, e, id);
        case Assign(x, e) => s := SearchAssign(depth, x, e, id);
        case Return(e) =>
          var v;
          s, v := SearchExpr(depth, e, id);
          if s == Going && astNodeFound {
            retVal, isReturning := v, true;
          }
        case Evaluate(e) =>
          var v;
          s, v := SearchExpr(depth, e, id);
        case If(cond, body) => s := SearchIf(depth, cond, body, id);
        case While(cond, body) => s := SearchLoop(depth, cond, body, id);
      }
    }

    method SearchAssign(depth: nat, x: string, e: Expr, id: nat) returns (s: Status)
      requires Scoped() && !astNodeFound
      modifies this
      ensures (s == Going ==> Searched()) && Counted(depth)
      ensures s == Going && id !in SearchedExpr(e) ==> !astNodeFound
      ensures s == Going && id !in NestedExpr(e) ==> Lapsed()
      ensures calls == old(calls) || old(Ready(id, NestedExpr(e))) ==>
                After(s) == SkipAssigned(old(Top()), x, SkipExpr(Reach(depth), old(Top()), e, id, old(Snapshot())))
      decreases depth, gas, e, 6
    {
      var v;
      s, v := SearchExpr(depth, e, id);
      if s == Going && astNodeFound {
        SetVariable(x, v);
      }
    }

    method SearchIf(depth: nat, cond: Expr, body: seq<Stmt>, id: nat) returns (s: Status)
      requires Scoped() && !astNodeFound
      modifies this
      ensures (s == Going ==> Searched()) && Counted(depth)
      ensures s == Going && id !in SearchedStmt(If(cond, body)) ==> !astNodeFound
      ensures s == Going && id !in NestedStmt(If(cond, body)) ==> Lapsed()
      ensures calls == old(calls) || old(Ready(id, NestedStmt(If(cond, body)))) ==>
                After(s) == SkipStmt(Reach(depth), old(Top()), If(cond, body), id, old(Snapshot()))
      decreases depth, gas, If(cond, body), 2
    {
      var v;
      s, v := SearchExpr(depth, cond, id);
      if s != Going {
        return;
      }
      if astNodeFound && Truthy(v) {
        s := InterpretBody(depth, body);
      } else {
        s := SearchBody(depth, body, id);
      }
    }

    method SearchLoop(depth: nat, cond: Expr, body: seq<Stmt>, id: nat) returns (s: Status)
      requires Scoped() && !astNodeFound
      modifies this
      ensures (s == Going ==> Searched()) && Counted(depth)
      ensures s == Going && id !in SearchedStmt(While(cond, body)) ==> !astNodeFound
      ensures s == Going && id !in NestedStmt(While(cond, body)) ==> Lapsed()
      ensures calls == old(calls) || old(Ready(id, NestedStmt(While(cond, body)))) ==>
                After(s) == SkipStmt(Reach(depth), old(Top()), While(cond, body), id, old(Snapshot()))
      decreases depth, gas, While(cond, body), 6
    {
      SkipWhileUnfolds(Reach(depth), Top(), cond, body, id, Snapshot());
      var v;
      s, v := SearchExpr(depth, cond, id);
      if s == Going {
        s := SearchAfterCondition(depth, cond, body, id, v);
      }
    }

    method SearchAfterCondition(depth: nat, cond: Expr, body: seq<Stmt>, id: nat, v: Word) returns (s: Status)
      requires Scoped()
      modifies this
      ensures (s == Going ==> Searched()) && Counted(depth)
      ensures s == Going && !old(astNodeFound) && id !in SearchedBody(body) ==> !astNodeFound
      ensures s == Going && (old(astNodeFound) || id !in NestedBody(body)) ==> Lapsed()
      ensures calls == old(calls) || old(Resumable(id, NestedBody(body))) ==>
                After(s) == SearchedLoop(Reach(depth), old(Top()), cond, body, id, v, old(Snapshot()))
      decreases depth, gas, While(cond, body), 5
    {
      if astNodeFound && Truthy(v) {
        s := ResumeIteration(depth, cond, body);
      } else {
        s := SearchBody(depth, body, id);
        if s == Going && astNodeFound {
          s := InterpretLoop(depth, cond, body);
        }
      }
    }

    /** The body of an iteration whose condition has just been found true, then the rest of the loop. */
    method ResumeIteration(depth: nat, cond: Expr, body: seq<Stmt>) returns (s: Status)
      requires Scoped()
      modifies this
      ensures (s == Going ==> Kept()) && Counted(depth)
      ensures calls == old(calls) || old(Clear()) ==>
                After(s) == PassAndLoop(Reach(depth), old(Top()), cond, body, old(Snapshot()))
      decreases depth, gas, While(cond, body), 4
    {
      var again;
      s, again := MakePass(depth, cond, body);
      if again {
        s := InterpretLoop(depth, cond, body);
      }
    }

    /* ---- Side exits ---- */

    /**
     The end of a side exit, with the rebuilt table on top: find the call, finish
     the body, clear the flags and hand out the return value, which stays in the
     context. Without an explicit `return` that is the value found there, or null
     if the rest of the body made an interpreted call.
     */
    method ResumeInInterpreter(depth: nat, body: seq<Stmt>, id: nat) returns (s: Status, v: Word, ghost returned: bool)
      requires Scoped() && !isReturning && !astNodeFound
      modifies this
      ensures calls >= old(calls)
      ensures s == Going ==> symbols == old(symbols) && !isReturning && !astNodeFound && v == retVal
      ensures calls == old(calls) || old(Ready(id, NestedBody(body))) ==>
                match SkipBody(Reach(depth), old(Top()), body, id, old(Snapshot()))
                case Done(c) =>
                  s == Going && v == c.retVal && returned == c.isReturning
                  && Snapshot() == c.(isReturning := false, found := false)
                case Crashed => s == Stuck
                case OutOfGas => s == Spent
      ensures s == Going && id !in NestedBody(body) && !returned ==> v == if calls == old(calls) then old(retVal) else 0
    {
      s := SearchBody(depth, body, id);
      returned := isReturning;
      isReturning, astNodeFound := false, false;
      v := retVal;
    }
  }
}
