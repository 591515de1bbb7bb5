/**
 Small programs on which the code goes wrong, one for each law of the other
 modules that says exactly when it goes right and has no example beside it.
 */
module Witnesses {
  import opened Tagged
  import opened Ast
  import opened Runtime
  import opened Interpreter
  import opened SearchLemmas
  import opened Continuation
  import opened Guarded
  import opened Resume
  import opened Scoping
  import opened Frames
  import opened Ir
  import opened Deopt
  import opened Exits
  import opened LostExits
  import opened Patchpoints
  import Closures

  const OBJECT: Word := 1000
  const OTHER: Word := 2000
  const EXPECTED_CLASS: Word := 24
  const ACTUAL_CLASS: Word := 32

  /** Every method returns `answer`; every class has one instance variable, `f`. */
  function Answering(answer: Word): World {
    World(
      (slot: nat, st: State, obj: Word, sel: string, vs: seq<Word>) => CallResult.Ret(answer, st),
      (st: State, obj: Word, vs: seq<Word>) => CallResult.Ret(answer, st),
      (op: ArithOp, st: State, l: Word, r: Word) => Fault,
      (cls: Word, sel: string) => 7,
      (h: Heap) => OTHER,
      (name: string) => ACTUAL_CLASS,
      (cls: Word) => ["f"],
      (c: Closure) => (0, 0))
  }

  /** Call 1 was compiled for another class than the one its receiver `x` has. */
  const GUARDS: Guards := map[1 := Baked(EXPECTED_CLASS, 5)]

  const CALL: Expr := MethodCall(1, VarRef("x"), "m", [])

  const BEFORE: State :=
    State(map[Param(0) := OBJECT], map[OBJECT := [ACTUAL_CLASS, 0]], map[1 := Site(EXPECTED_CLASS, 0, 0, 5)])

  /** The profile after the missed call has been interpreted. */
  const AFTER: State := SetSite(BEFORE, 1, Site(EXPECTED_CLASS, ACTUAL_CLASS, 1, 7))

  const NAMES: Table := map["x" := Param(0)]

  const START: Ctx := Ctx(BEFORE, 0, false, false, 5)

  lemma CallMisses(answer: Word)
    ensures Entry(START)
    ensures ExecExpr(Answering(answer), NAMES, GUARDS, CALL, BEFORE) == Miss(1, BEFORE)
    ensures EvalExpr(Answering(answer), NAMES, CALL, BEFORE) == Val(answer, AFTER)
  {
    var w := Answering(answer);
    assert EvalExpr(w, NAMES, VarRef("x"), BEFORE) == Val(OBJECT, BEFORE);
    assert ExecExpr(w, NAMES, GUARDS, VarRef("x"), BEFORE) == Value(OBJECT, BEFORE);
    assert EvalArgs(w, NAMES, [], BEFORE) == Vals([], BEFORE);
    assert ExecArgs(w, NAMES, GUARDS, [], BEFORE) == Values([], BEFORE);
    assert TestGuard(GUARDS[1], BEFORE.heap, OBJECT) == Fail;
    assert Dispatch(w, 1, "m", OBJECT, [], BEFORE) == Val(answer, AFTER);
  }

  /** `if x.m() { return 1; }` and `while x.m() { return 1; }` return 1 after a side exit although `x.m()` is null. */
  lemma FalseConditionRunsBody()
    ensures var w := Answering(0);
            && ConditionMiss(w, NAMES, GUARDS, CALL, 1, START, BEFORE, 0, AFTER)
            && InterpStmt(w, NAMES, If(CALL, [Return(Number(1))]), START) == Done(START.(st := AFTER))
            && SkipStmt(w, NAMES, If(CALL, [Return(Number(1))]), 1, START)
               == Done(Ctx(AFTER, Encode(1), true, true, 5))
            && InterpStmt(w, NAMES, While(CALL, [Return(Number(1))]), START) == Done(START.(st := AFTER))
            && SkipStmt(w, NAMES, While(CALL, [Return(Number(1))]), 1, START)
               == Done(Ctx(AFTER, Encode(1), true, true, 5))
  {
    var w := Answering(0);
    var body := [Return(Number(1))];
    CallMisses(0);
    ConditionIsResumed(w, NAMES, GUARDS, CALL, 1, START, BEFORE, 0, AFTER);
    var found := START.(st := AFTER, found := true);
    assert InterpStmt(w, NAMES, body[0], found) == Done(Ctx(AFTER, Encode(1), true, true, 5));
    assert InterpBody(w, NAMES, body, found) == Done(Ctx(AFTER, Encode(1), true, true, 5));
    FoundSearchInterprets(w, NAMES, body, 1, found);
    SkipWhileUnfolds(w, NAMES, CALL, body, 1, START);
  }

  /** `1 == x.m()` is false after a side exit although `x.m()` is 1. */
  lemma RightOperandLosesLeft()
    ensures var w := Answering(Encode(1));
            var e := Binary(Comparison(Eq), Number(1), CALL);
            && ExecExpr(w, NAMES, GUARDS, e, BEFORE) == Miss(1, BEFORE)
            && EvalExpr(w, NAMES, e, BEFORE) == Val(Encode(1), AFTER)
            && SkipExpr(w, NAMES, e, 1, START) == At(Encode(0), START.(st := AFTER, found := true))
  {
    var w := Answering(Encode(1));
    CallMisses(Encode(1));
    RightOperandExit(w, NAMES, GUARDS, Comparison(Eq), Number(1), CALL, 1, START, Encode(1), BEFORE, BEFORE);
  }

  /* ---- Whole functions ---- */

  /** A method `g(x)` with the given body, compiled for a class with the given variables and running on `OBJECT`. */
  function Compiled(body: seq<Stmt>, ivars: seq<string>): Activation {
    Activation(Closure("g", ["x"], [], [], body), true, OBJECT, ivars, ["f"])
  }

  function Method(body: seq<Stmt>): Activation {
    Compiled(body, ["f"])
  }

  /** `g` is called with `x` as its argument. */
  function Entered(x: Word): State {
    State(map[SelfSlot := OBJECT, CmdSlot := Encode(3), Param(0) := x], BEFORE.heap, BEFORE.sites)
  }

  lemma CompiledEntry(body: seq<Stmt>, ivars: seq<string>, x: Word, st: State)
    requires st.mem == map[] && "x" !in ivars
    ensures EntryState(Compiled(body, ivars), 3, [x], st) == st.(mem := Entered(x).mem)
    ensures Resolve(CompiledSymbols(Compiled(body, ivars)), "x") == Param(0)
    ensures Resolve(InterpretedTable(Compiled(body, ivars)), "x") == Param(0)
  {
    var a := Compiled(body, ivars);
    var st2 := Store(Store(st, SelfSlot, OBJECT), CmdSlot, Encode(Signed(3)));
    assert Params(1) == [Param(0)] && Params(1)[..0] == [] && [x][..0] == [];
    assert StoreAll(st2, Params(1), [x]) == Store(st2, Param(0), x);
    assert Locals(0) == [] && Zeros(0) == [] && ["x"][..0] == [];
    var t := Bind(Bind(map["self" := SelfSlot, "cmd" := CmdSlot], ["x"], Params(1)), [], Locals(0));
    BindElsewhere(t, ivars, Fields(OBJECT, IVAR_BASE, |ivars|), "x");
    MethodTablesAgree(a, "x");
  }

  lemma MethodEntry(body: seq<Stmt>, x: Word, st: State)
    requires st.mem == map[]
    ensures EntryState(Method(body), 3, [x], st) == st.(mem := Entered(x).mem)
    ensures var s := CompiledSymbols(Method(body));
            Resolve(s, "x") == Param(0) && Resolve(s, "self") == SelfSlot && Resolve(s, "f") == Field(OBJECT, 1)
    ensures Resolve(InterpretedTable(Method(body)), "x") == Param(0)
  {
    CompiledEntry(body, ["f"], x, st);
    MethodSymbolOf(Method(body), "f");
    MethodSymbolOf(Method(body), "self");
  }

  lemma MethodMisses(tab: Table, answer: Word)
    requires Resolve(tab, "x") == Param(0)
    ensures var w := Answering(answer);
            var st := Entered(OBJECT);
            && ExecExpr(w, tab, GUARDS, CALL, st) == Miss(1, st)
            && EvalExpr(w, tab, CALL, st) == Val(answer, SetSite(st, 1, SiteOf(AFTER, 1)))
  {
    var w := Answering(answer);
    var st := Entered(OBJECT);
    assert ExecExpr(w, tab, GUARDS, VarRef("x"), st) == Value(OBJECT, st);
    assert EvalArgs(w, tab, [], st) == Vals([], st);
    assert ExecArgs(w, tab, GUARDS, [], st) == Values([], st);
    assert TestGuard(GUARDS[1], st.heap, OBJECT) == Fail;
    assert Dispatch(w, 1, "m", OBJECT, [], st) == Val(answer, SetSite(st, 1, SiteOf(AFTER, 1)));
  }

  const OUTER: Expr := MethodCall(2, Number(1), "h", [CALL])

  lemma ArgumentMisses(tab: Table)
    requires Resolve(tab, "x") == Param(0)
    ensures ExecBody(Answering(9), tab, GUARDS, [Return(OUTER)], Entered(OBJECT), 5) == Missed(1, Entered(OBJECT), 5)
  {
    var w := Answering(9);
    var st := Entered(OBJECT);
    MethodMisses(tab, 9);
    assert ExecArgs(w, tab, GUARDS, [CALL], st) == ArgsMiss(1, st);
    assert ExecExpr(w, tab, GUARDS, OUTER, st) == Miss(1, st);
    assert ExecStmt(w, tab, GUARDS, Return(OUTER), st, 5) == Missed(1, st, 5);
  }

  lemma ArgumentIsUnsearched()
    ensures 1 !in SearchedBody([Return(OUTER)]) && NewsInBody([Return(OUTER)]) == []
  {
    var body := [Return(OUTER)];
    assert SearchedExpr(Number(1)) == {} && NewsInExpr(Number(1)) == [];
    assert SearchedExpr(OUTER) == {2} && NewsInExpr(OUTER) == [];
    assert SearchedStmt(body[0]) == {2} && NewsInStmt(body[0]) == [];
    assert SearchedBody(body[1..]) == {} && NewsInBody(body[1..]) == [];
  }

  lemma ArgumentIsInterpreted(tab: Table)
    requires Resolve(tab, "x") == Param(0)
    ensures var r := EvalExpr(Answering(9), tab, OUTER, Entered(OBJECT)); r.Val? && r.v == 9
  {
    var w := Answering(9);
    var st := Entered(OBJECT);
    MethodMisses(tab, 9);
    var st1 := SetSite(st, 1, SiteOf(AFTER, 1));
    assert EvalArgs(w, tab, [], st1) == Vals([], st1);
    assert EvalArgs(w, tab, [CALL], st) == Vals([9], st1);
    assert Dispatch(w, 2, "h", Encode(1), [9], st1).Val?;
  }

  lemma ReturnedValue(w: World, tab: Table, e: Expr, c: Ctx)
    requires !c.isReturning && EvalExpr(w, tab, e, c.st).Val?
    ensures var r := EvalExpr(w, tab, e, c.st);
            InterpBody(w, tab, [Return(e)], c) == Done(c.(st := r.st, retVal := r.v, isReturning := true))
  {
    assert InterpStmt(w, tab, [Return(e)][0], c).Done?;
  }

  /** `func g(x) { return 1.h(x.m()); }` returns null after a side exit from the call in the argument. */
  lemma ArgumentEndsFunction(records: nat)
    ensures var a := Method([Return(OUTER)]);
            var st := BEFORE.(mem := map[]);
            var o := GuardedRun(Answering(9), a, GUARDS, 3, [OBJECT], st, 5);
            && o == Missed(1, Entered(OBJECT), 5)
            && Finish(Answering(9), a, records, FinalOf(a, o), 0).Result?
            && Finish(Answering(9), a, records, FinalOf(a, o), 0).v == 0
            && InterpretFunction(Answering(9), a, 3, [OBJECT], st, 5, 0).Result?
            && InterpretFunction(Answering(9), a, 3, [OBJECT], st, 5, 0).v == 9
  {
    var a := Method([Return(OUTER)]);
    var st := Entered(OBJECT);
    MethodEntry([Return(OUTER)], OBJECT, BEFORE.(mem := map[]));
    ArgumentMisses(CompiledSymbols(a));
    ArgumentIsUnsearched();
    UnsearchedExitEndsFunction(Answering(9), a, records, Missed(1, st, 5), 0);
    ArgumentIsInterpreted(InterpretedTable(a));
    ReturnedValue(Answering(9), InterpretedTable(a), OUTER, Ctx(st, 0, false, false, 5));
  }

  lemma StatementMisses(tab: Table)
    requires Resolve(tab, "x") == Param(0)
    ensures ExecBody(Answering(17), tab, GUARDS, [Evaluate(CALL)], Entered(OBJECT), 5)
         == Missed(1, Entered(OBJECT), 5)
  {
    MethodMisses(tab, 17);
    assert ExecStmt(Answering(17), tab, GUARDS, [Evaluate(CALL)][0], Entered(OBJECT), 5)
        == Missed(1, Entered(OBJECT), 5);
  }

  lemma StatementRunMisses(a: Activation)
    requires a == Method([Evaluate(CALL)])
    ensures GuardedRun(Answering(17), a, GUARDS, 3, [OBJECT], BEFORE.(mem := map[]), 5)
         == Missed(1, Entered(OBJECT), 5)
  {
    MethodEntry(a.decl.body, OBJECT, BEFORE.(mem := map[]));
    StatementMisses(CompiledSymbols(a));
  }

  lemma ExitIsSearched(w: World, a: Activation, st: State, gas: nat, retVal: Word)
    requires Stored(a.decl, CompiledSymbols(a))
    ensures |FrameOf(a)| == 2 + |a.decl.params| + |a.decl.decls| + |a.decl.boundVars|
    ensures Finish(w, a, 1, Exited(1, FrameOf(a), st, gas), retVal)
         == FromRun(SkipBody(w, Rebuild(w, a.decl, st, FrameOf(a)), a.decl.body, 1,
                             Ctx(st, retVal, false, false, gas)))
  {
  }

  lemma ExitKeepsLeftover(a: Activation, st: State)
    requires a == Method([Evaluate(CALL)]) && st == Entered(OBJECT)
    ensures var r := Finish(Answering(17), a, 1, Exited(1, FrameOf(a), st, 5), 9); r.Result? && r.v == 9
  {
    ParameterIsRebuilt(Answering(17), a.decl.body, a.ivars, st);
    ExitIsSearched(Answering(17), a, st, 5, 9);
    CallIsResumed(Rebuild(Answering(17), a.decl, st, FrameOf(a)), 17, Ctx(st, 9, false, false, 5));
  }

  /** After an exit that left 9 in the context, `func g(x) { x.m(); }` returns 9 when it exits, and not null. */
  lemma LeftoverIsReturned(a: Activation, st: State, exit: Outcome)
    requires a == Method([Evaluate(CALL)]) && st == BEFORE.(mem := map[]) && exit == Missed(1, Entered(OBJECT), 5)
    ensures GuardedRun(Answering(17), a, GUARDS, 3, [OBJECT], st, 5) == exit
    ensures var r := Finish(Answering(17), a, 1, FinalOf(a, exit), 9); r.Result? && r.v == 9
    ensures var r := InterpretFunction(Answering(17), a, 3, [OBJECT], st, 5, 0); r.Result? && r.v == 0
  {
    StatementRunMisses(a);
    ExitKeepsLeftover(a, Entered(OBJECT));
    InterpretationReturnsNull(a);
  }

  lemma InterpretationReturnsNull(a: Activation)
    requires a == Method([Evaluate(CALL)])
    ensures var r := InterpretFunction(Answering(17), a, 3, [OBJECT], BEFORE.(mem := map[]), 5, 0);
            r.Result? && r.v == 0
  {
    MethodEntry(a.decl.body, OBJECT, BEFORE.(mem := map[]));
    CallIsInterpreted(InterpretedTable(a), 17, Ctx(Entered(OBJECT), 0, false, false, 5));
  }

  lemma ParameterIsRebuilt(w: World, body: seq<Stmt>, ivars: seq<string>, st: State)
    requires "x" !in ivars
    ensures var a := Compiled(body, ivars);
            var s := CompiledSymbols(a);
            && Stored(a.decl, s)
            && Resolve(Rebuild(w, a.decl, st, PatchpointFrame(a.decl, s)), "x") == Param(0)
  {
    var a := Compiled(body, ivars);
    CompiledEntry(body, ivars, OBJECT, BEFORE.(mem := map[]));
    MethodSymbolOf(a, "x");
    RebuiltEntry(w, a.decl, CompiledSymbols(a), st, "x");
  }

  lemma CallIsResumed(tab: Table, answer: Word, c: Ctx)
    requires Resolve(tab, "x") == Param(0) && c.st == Entered(OBJECT) && !c.found && !c.isReturning
    ensures var r := SkipBody(Answering(answer), tab, [Evaluate(CALL)], 1, c); r.Done? && r.c.retVal == c.retVal
  {
    var w := Answering(answer);
    MethodMisses(tab, answer);
    assert SkipExpr(w, tab, VarRef("x"), 1, c) == At(OBJECT, c);
    assert EvalExpr(w, tab, VarRef("x"), c.st) == Val(OBJECT, c.st);
    var q := EvalExpr(w, tab, CALL, c.st);
    assert SkipExpr(w, tab, CALL, 1, c) == At(q.v, c.(st := q.st, found := true));
    assert SkipStmt(w, tab, [Evaluate(CALL)][0], 1, c) == Done(c.(st := q.st, found := true));
  }

  lemma CallIsInterpreted(tab: Table, answer: Word, c: Ctx)
    requires Resolve(tab, "x") == Param(0) && c.st == Entered(OBJECT) && !c.isReturning
    ensures var r := InterpBody(Answering(answer), tab, [Evaluate(CALL)], c); r.Done? && r.c.retVal == c.retVal
  {
    MethodMisses(tab, answer);
    assert InterpStmt(Answering(answer), tab, [Evaluate(CALL)][0], c).Done?;
  }

  /* ---- One exit after another ---- */

  /** The profile after `n` exits in a row: the missed class is counted, and its method is cached. */
  function ProfileAfter(n: nat): Site {
    if n == 0 then Site(EXPECTED_CLASS, 0, 0, 5) else Site(EXPECTED_CLASS, ACTUAL_CLASS, n, 7)
  }

  function EnteredAfter(n: nat): State {
    Entered(OBJECT).(sites := map[1 := ProfileAfter(n)])
  }

  lemma MissesAgain(tab: Table, n: nat)
    requires Resolve(tab, "x") == Param(0) && n < RECOMPILE_THRESHOLD
    ensures var w := Answering(17);
            && ExecExpr(w, tab, GUARDS, CALL, EnteredAfter(n)) == Miss(1, EnteredAfter(n))
            && EvalExpr(w, tab, CALL, EnteredAfter(n)) == Val(17, EnteredAfter(n + 1))
  {
    var w := Answering(17);
    var st := EnteredAfter(n);
    assert ExecExpr(w, tab, GUARDS, VarRef("x"), st) == Value(OBJECT, st);
    assert EvalArgs(w, tab, [], st) == Vals([], st);
    assert ExecArgs(w, tab, GUARDS, [], st) == Values([], st);
    assert TestGuard(GUARDS[1], st.heap, OBJECT) == Fail;
    assert SetSite(st, 1, ProfileAfter(n + 1)) == EnteredAfter(n + 1);
    assert Dispatch(w, 1, "m", OBJECT, [], st) == Val(17, EnteredAfter(n + 1));
  }

  lemma MissIsResumedAgain(tab: Table, n: nat)
    requires Resolve(tab, "x") == Param(0) && n < RECOMPILE_THRESHOLD
    ensures SkipBody(Answering(17), tab, [Return(CALL)], 1, Ctx(EnteredAfter(n), 0, false, false, 5))
         == Done(Ctx(EnteredAfter(n + 1), 17, true, true, 5))
  {
    var w := Answering(17);
    var c := Ctx(EnteredAfter(n), 0, false, false, 5);
    MissesAgain(tab, n);
    assert SkipExpr(w, tab, VarRef("x"), 1, c) == At(OBJECT, c);
    assert EvalExpr(w, tab, VarRef("x"), c.st) == Val(OBJECT, c.st);
    SkipMethodCallUnfolds(w, tab, 1, VarRef("x"), "m", [], 1, c);
    assert SkipExpr(w, tab, CALL, 1, c) == At(17, Ctx(EnteredAfter(n + 1), 0, false, true, 5));
    assert SkipStmt(w, tab, [Return(CALL)][0], 1, c) == Done(Ctx(EnteredAfter(n + 1), 17, true, true, 5));
  }

  lemma ReturnMisses(tab: Table, n: nat)
    requires Resolve(tab, "x") == Param(0) && n < RECOMPILE_THRESHOLD
    ensures ExecBody(Answering(17), tab, GUARDS, [Return(CALL)], EnteredAfter(n), 5) == Missed(1, EnteredAfter(n), 5)
  {
    MissesAgain(tab, n);
    assert ExecStmt(Answering(17), tab, GUARDS, [Return(CALL)][0], EnteredAfter(n), 5) == Missed(1, EnteredAfter(n), 5);
  }

  lemma ExitIsFinished(a: Activation, n: nat)
    requires a == Compiled([Return(CALL)], a.ivars) && "x" !in a.ivars && n < RECOMPILE_THRESHOLD
    ensures Finish(Answering(17), a, 1, Exited(1, FrameOf(a), EnteredAfter(n), 5), 0)
         == Result(17, EnteredAfter(n + 1), 5)
  {
    ParameterIsRebuilt(Answering(17), a.decl.body, a.ivars, EnteredAfter(n));
    ExitIsSearched(Answering(17), a, EnteredAfter(n), 5, 0);
    MissIsResumedAgain(Rebuild(Answering(17), a.decl, EnteredAfter(n), FrameOf(a)), n);
  }

  lemma RunMissesAgain(a: Activation, n: nat)
    requires a == Compiled([Return(CALL)], a.ivars) && "x" !in a.ivars && n < RECOMPILE_THRESHOLD
    ensures GuardedRun(Answering(17), a, GUARDS, 3, [OBJECT], State(map[], BEFORE.heap, map[1 := ProfileAfter(n)]), 5)
         == Missed(1, EnteredAfter(n), 5)
  {
    CompiledEntry(a.decl.body, a.ivars, OBJECT, State(map[], BEFORE.heap, map[1 := ProfileAfter(n)]));
    ReturnMisses(CompiledSymbols(a), n);
  }

  lemma ExitIsInterpreted(a: Activation, n: nat)
    requires a == Compiled([Return(CALL)], a.ivars) && "x" !in a.ivars && n < RECOMPILE_THRESHOLD
    ensures InterpretFunction(Answering(17), a, 3, [OBJECT], State(map[], BEFORE.heap, map[1 := ProfileAfter(n)]), 5, 0)
         == Result(17, EnteredAfter(n + 1), 5)
  {
    CompiledEntry(a.decl.body, a.ivars, OBJECT, State(map[], BEFORE.heap, map[1 := ProfileAfter(n)]));
    MissesAgain(InterpretedTable(a), n);
    ReturnedValue(Answering(17), InterpretedTable(a), CALL, Ctx(EnteredAfter(n), 0, false, false, 5));
  }

  /** The only name of the body is `x`, and its only call can be resumed at. */
  lemma OnlyCallOfBody(body: seq<Stmt>)
    requires body == [Return(CALL)]
    ensures BodyNames(body) == {"x"} && ResumableBody(body, 1) && NewsBefore(body, 1) == []
  {
    assert body[1..] == [] && BodyNames(body[1..]) == {};
    assert ExprNames(VarRef("x")) == {"x"} && ArgsNames([]) == {} && ExprNames(CALL) == {"x"};
    assert StmtNames(body[0]) == {"x"};
    assert StmtSites(body[0]) == {1} && ResumableStmt(body[0], 1);
  }

  lemma OneRecord(a: Activation, guards: Guards)
    requires a.decl.body == [Return(CALL)]
    ensures Records(CodeOf(a, guards)) == 1
  {
    OneCall(1, "x", "m", a.decl.body);
    RecordsAreCalls(a, guards);
  }

  lemma OneCall(site: nat, x: string, sel: string, body: seq<Stmt>)
    requires body == [Return(MethodCall(site, VarRef(x), sel, []))]
    ensures CallsInBody(body) == 1
  {
    var args: seq<Expr> := [];
    assert CallsInArgs(args) == 0;
    assert CallsInExpr(VarRef(x)) == 0;
    assert CallsInExpr(body[0].expr) == 1;
  }

  lemma ParameterIsFaithful(w: World, a: Activation, st: State)
    requires a == Compiled([Return(CALL)], a.ivars) && "x" !in a.ivars
    ensures ProperlyBound(a) && CommonNames(a) && FaithfulExit(w, a, st)
  {
    OnlyCallOfBody(a.decl.body);
    ParameterIsRebuilt(w, a.decl.body, a.ivars, st);
  }

  /**
   `func g(x) { return x.m(); }` compiled for a receiver of any class without a
   variable `x`, such as a base class of the receiver's, and with another class
   assumed at the call: each of 10000 calls in a row is one that deoptimisation is
   transparent for. It exits and is finished as interpretation would, although the
   first exit moves the profile away from what was compiled.
   */
  lemma EveryExitIsRight(a: Activation, st: State, n: nat, exit: Outcome)
    requires a == Compiled([Return(CALL)], a.ivars) && "x" !in a.ivars && n < RECOMPILE_THRESHOLD
    requires st == State(map[], BEFORE.heap, map[1 := ProfileAfter(n)]) && exit == Missed(1, EnteredAfter(n), 5)
    ensures n > 0 ==> !Unmoved(SiteOf(st, 1), GUARDS[1])
    ensures GuardedRun(Answering(17), a, GUARDS, 3, [OBJECT], st, 5) == exit
    ensures ProperlyBound(a) && CommonNames(a) && Compiles(a, GUARDS) && Unlittered(a, exit)
    ensures Resumes(Answering(17), a, GUARDS, exit)
    ensures Finish(Answering(17), a, Records(CodeOf(a, GUARDS)), FinalOf(a, exit), 0)
         == Result(17, EnteredAfter(n + 1), 5)
    ensures InterpretFunction(Answering(17), a, 3, [OBJECT], st, 5, 0) == Result(17, EnteredAfter(n + 1), 5)
  {
    OneRecord(a, GUARDS);
    OnlyCallOfBody(a.decl.body);
    ParameterIsFaithful(Answering(17), a, EnteredAfter(n));
    RunMissesAgain(a, n);
    ExitIsFinished(a, n);
    ExitIsInterpreted(a, n);
  }

  /* ---- Inherited methods ---- */

  /** `func m(y) { return y; }`, compiled for a class without variables and running on one with a variable `y`. */
  function Inherited(self: Word): Activation {
    Activation(Closure("m", ["y"], [], [], [Return(VarRef("y"))]), true, self, [], ["y"])
  }

  lemma InheritedTables(self: Word)
    ensures Resolve(CompiledSymbols(Inherited(self)), "y") == Param(0)
    ensures Resolve(InterpretedTable(Inherited(self)), "y") == Field(self, IVAR_BASE)
  {
    var a := Inherited(self);
    var t := Bind(Bind(map[], ["y"], Params(1)), [], Locals(0))["self" := SelfSlot]["cmd" := CmdSlot];
    assert ["y"][..0] == [] && Params(1) == [Param(0)] && Params(1)[..0] == [];
    FieldAt(t, ["y"], self, IVAR_BASE, "y");
  }

  /**
   `class A { func m(y) { return y; } } class B : A { var y; }`, where `m` is compiled
   on an A and called on a B: compiled code returns the argument, and the interpreter
   the instance variable.
   */
  lemma InheritedMethodDiffers(w: World, self: Word, sel: Word, v: Word, st: State, gas: nat)
    requires self in st.heap && |st.heap[self]| == 2
    ensures var a := Inherited(self);
            var o := GuardedRun(w, a, map[], sel, [v], st, gas);
            var interpreted := InterpretFunction(w, a, sel, [v], st, gas, 0);
            && o.Returned? && o.v == v && !CommonNames(a)
            && interpreted.Result? && interpreted.v == st.heap[self][1]
  {
    var a := Inherited(self);
    var st1 := EntryState(a, sel, [v], st);
    InheritedTables(self);
    ArgumentIsStored(a, sel, v, st);
    assert ExecExpr(w, CompiledSymbols(a), map[], VarRef("y"), st1) == Value(v, st1);
    assert ExecStmt(w, CompiledSymbols(a), map[], a.decl.body[0], st1, gas) == Returned(v, st1, gas);
    assert EvalExpr(w, InterpretedTable(a), VarRef("y"), st1) == Val(st.heap[self][1], st1);
    ReturnedValue(w, InterpretedTable(a), VarRef("y"), Ctx(st1, 0, false, false, gas));
    assert StmtNames(a.decl.body[0]) == {"y"} && "y" in BodyNames(a.decl.body);
  }

  lemma ArgumentIsStored(a: Activation, sel: Word, v: Word, st: State)
    requires a == Inherited(a.self)
    ensures var st1 := EntryState(a, sel, [v], st); Load(st1, Param(0)) == v && st1.heap == st.heap
  {
    assert Params(1) == [Param(0)] && Params(1)[..0] == [] && [v][..0] == [];
    assert Locals(0) == [] && Zeros(0) == [];
  }

  /** `Entered(OTHER)` with both objects in the heap. */
  const TWO_OBJECTS: State := Entered(OTHER).(heap := BEFORE.heap[OTHER := [ACTUAL_CLASS, 0]])

  lemma SelfIsAssigned(w: World, tab: Table)
    requires Resolve(tab, "x") == Param(0) && Resolve(tab, "self") == SelfSlot
    ensures ExecBody(w, tab, GUARDS, [Assign("self", VarRef("x"))], TWO_OBJECTS, 5)
         == Normal(Store(TWO_OBJECTS, SelfSlot, OTHER), 5)
  {
    assert ExecExpr(w, tab, GUARDS, VarRef("x"), TWO_OBJECTS) == Value(OTHER, TWO_OBJECTS);
    assert ExecStmt(w, tab, GUARDS, [Assign("self", VarRef("x"))][0], TWO_OBJECTS, 5)
        == Normal(Store(TWO_OBJECTS, SelfSlot, OTHER), 5);
  }

  lemma OtherFieldIsFound(w: World, body: seq<Stmt>, st: State)
    requires w.ivarNames(ACTUAL_CLASS) == ["f"]
    requires Load(st, SelfSlot) == OTHER && ClassOf(st.heap, OTHER) == ACTUAL_CLASS
    ensures var a := Method(body);
            var s := CompiledSymbols(a);
            && Stored(a.decl, s)
            && Resolve(Rebuild(w, a.decl, st, PatchpointFrame(a.decl, s)), "f") == Field(OTHER, 1)
  {
    var a := Method(body);
    var s := CompiledSymbols(a);
    MethodSymbolOf(a, "x");
    MethodSymbolOf(a, "self");
    MethodSymbolOf(a, "cmd");
    FrameParts(a.decl, s);
    RebuiltEntry(w, a.decl, s, st, "f");
    var i := BindAt(map[], ["f"], Fields(OTHER, IVAR_BASE, 1), "f");
  }

  /**
   `func g(x) { self = x; ... }`: at an exit after the assignment the instance
   variable `f` is looked for in `x` and no longer in the receiver.
   */
  lemma AssignedSelfRedirects(w: World)
    requires w.ivarNames(ACTUAL_CLASS) == ["f"]
    ensures var a := Method([Assign("self", VarRef("x"))]);
            var s := CompiledSymbols(a);
            var o := ExecBody(w, s, GUARDS, a.decl.body, TWO_OBJECTS, 5);
            && o.Normal? && Stored(a.decl, s) && Resolve(s, "f") == Field(OBJECT, 1)
            && Resolve(Rebuild(w, a.decl, o.st, PatchpointFrame(a.decl, s)), "f") == Field(OTHER, 1)
  {
    var body := [Assign("self", VarRef("x"))];
    MethodEntry(body, OTHER, BEFORE.(mem := map[]));
    SelfIsAssigned(w, CompiledSymbols(Method(body)));
    OtherFieldIsFound(w, body, Store(TWO_OBJECTS, SelfSlot, OTHER));
  }

  /* ---- Objects created again, and receivers lost ---- */

  const THIRD: Word := 3000

  /** New objects are at `OTHER`, and then at `THIRD`. */
  function Allocating(): World {
    Answering(17).(allocate := (h: Heap) => if OTHER in h then THIRD else OTHER)
  }

  const CREATE: Stmt := Evaluate(NewObject("C"))

  function WithObjects(heap: Heap): State {
    Entered(OBJECT).(heap := heap)
  }

  const ONE_CREATED: Heap := BEFORE.heap[OTHER := [ACTUAL_CLASS, 0]]

  const TWO_CREATED: Heap := ONE_CREATED[THIRD := [ACTUAL_CLASS, 0]]

  lemma CallGoesOn(tab: Table, heap: Heap)
    requires Resolve(tab, "x") == Param(0) && OBJECT in heap && heap[OBJECT] == [ACTUAL_CLASS, 0]
    ensures ExecExpr(Allocating(), tab, GUARDS, CALL, WithObjects(heap)) == Miss(1, WithObjects(heap))
    ensures EvalExpr(Allocating(), tab, CALL, WithObjects(heap))
         == Val(17, SetSite(WithObjects(heap), 1, SiteOf(AFTER, 1)))
  {
    var w := Allocating();
    var st := WithObjects(heap);
    assert ExecExpr(w, tab, GUARDS, VarRef("x"), st) == Value(OBJECT, st);
    assert EvalArgs(w, tab, [], st) == Vals([], st);
    assert ExecArgs(w, tab, GUARDS, [], st) == Values([], st);
    assert TestGuard(GUARDS[1], st.heap, OBJECT) == Fail;
    assert Dispatch(w, 1, "m", OBJECT, [], st) == Val(17, SetSite(st, 1, SiteOf(AFTER, 1)));
  }

  lemma ObjectsAreCreated()
    ensures EvalNew(Allocating(), "C", WithObjects(BEFORE.heap)) == Val(OTHER, WithObjects(ONE_CREATED))
    ensures EvalNew(Allocating(), "C", WithObjects(ONE_CREATED)) == Val(THIRD, WithObjects(TWO_CREATED))
  {
    assert [ACTUAL_CLASS] + Zeros(1) == [ACTUAL_CLASS, 0];
  }

  const CREATE_AND_CALL: seq<Stmt> := [CREATE, Evaluate(CALL)]

  lemma CreateThenMiss(tab: Table)
    requires Resolve(tab, "x") == Param(0)
    ensures ExecBody(Allocating(), tab, GUARDS, CREATE_AND_CALL, WithObjects(BEFORE.heap), 5)
         == Missed(1, WithObjects(ONE_CREATED), 5)
  {
    var w := Allocating();
    ObjectsAreCreated();
    CallGoesOn(tab, ONE_CREATED);
    var st := WithObjects(BEFORE.heap);
    assert ExecStmt(w, tab, GUARDS, CREATE_AND_CALL[0], st, 5) == Normal(WithObjects(ONE_CREATED), 5);
    assert CREATE_AND_CALL[1..] == [Evaluate(CALL)];
    assert ExecStmt(w, tab, GUARDS, CREATE_AND_CALL[1..][0], WithObjects(ONE_CREATED), 5)
        == Missed(1, WithObjects(ONE_CREATED), 5);
  }

  lemma CreateThenRest(tab: Table, heap: Heap)
    requires Resolve(tab, "x") == Param(0) && OBJECT in heap && heap[OBJECT] == [ACTUAL_CLASS, 0]
    ensures RestBody(Allocating(), tab, CREATE_AND_CALL, 1, Ctx(WithObjects(heap), 0, false, false, 5))
         == Done(Ctx(SetSite(WithObjects(heap), 1, SiteOf(AFTER, 1)), 0, false, false, 5))
  {
    var c := Ctx(WithObjects(heap), 0, false, false, 5);
    CallGoesOn(tab, heap);
    assert StmtSites(CREATE_AND_CALL[0]) == {} && CREATE_AND_CALL[1..] == [Evaluate(CALL)];
    assert StmtSites([Evaluate(CALL)][0]) == {1};
    assert EvalExpr(Allocating(), tab, VarRef("x"), c.st) == Val(OBJECT, c.st);
    assert RestExpr(Allocating(), tab, CALL, 1, c.st) == EvalExpr(Allocating(), tab, CALL, c.st);
    assert RestStmt(Allocating(), tab, [Evaluate(CALL)][0], 1, c)
        == Done(c.(st := SetSite(WithObjects(heap), 1, SiteOf(AFTER, 1))));
  }

  lemma SearchCreatesAgain()
    ensures ResumableBody(CREATE_AND_CALL, 1) && NewsBefore(CREATE_AND_CALL, 1) == ["C"]
    ensures Walk(Allocating(), ["C"], WithObjects(ONE_CREATED)) == Some(WithObjects(TWO_CREATED))
  {
    var w := Allocating();
    ObjectsAreCreated();
    assert StmtSites(CREATE_AND_CALL[0]) == {} && CREATE_AND_CALL[1..] == [Evaluate(CALL)];
    assert StmtSites([Evaluate(CALL)][0]) == {1} && ResumableStmt([Evaluate(CALL)][0], 1);
    assert NewsInStmt(CREATE_AND_CALL[0]) == ["C"] && NewsBefore([Evaluate(CALL)], 1) == [];
    assert ["C"][1..] == [] && Walk(w, [], WithObjects(TWO_CREATED)) == Some(WithObjects(TWO_CREATED));
  }

  lemma SearchGoesOn(tab: Table, c: Ctx)
    requires Resolve(tab, "x") == Param(0) && c == Ctx(WithObjects(ONE_CREATED), 0, false, false, 5)
    ensures SkipBody(Allocating(), tab, CREATE_AND_CALL, 1, c)
         == Done(Ctx(SetSite(WithObjects(TWO_CREATED), 1, SiteOf(AFTER, 1)), 0, false, true, 5))
  {
    SearchCreatesAgain();
    SearchResumesBody(Allocating(), tab, CREATE_AND_CALL, 1, c);
    CreateThenRest(tab, TWO_CREATED);
  }

  lemma CreatedTwice(a: Activation, st: State)
    requires a == Method(CREATE_AND_CALL) && st == WithObjects(ONE_CREATED)
    ensures Finish(Allocating(), a, 1, Exited(1, FrameOf(a), st, 5), 0)
         == Result(0, SetSite(WithObjects(TWO_CREATED), 1, SiteOf(AFTER, 1)), 5)
  {
    ParameterIsRebuilt(Allocating(), a.decl.body, a.ivars, st);
    ExitIsSearched(Allocating(), a, st, 5, 0);
    SearchGoesOn(Rebuild(Allocating(), a.decl, st, FrameOf(a)), Ctx(st, 0, false, false, 5));
  }

  lemma CreatedOnce(tab: Table)
    requires Resolve(tab, "x") == Param(0)
    ensures InterpBody(Allocating(), tab, CREATE_AND_CALL, Ctx(WithObjects(BEFORE.heap), 0, false, false, 5))
         == Done(Ctx(SetSite(WithObjects(ONE_CREATED), 1, SiteOf(AFTER, 1)), 0, false, false, 5))
  {
    var w := Allocating();
    var c := Ctx(WithObjects(BEFORE.heap), 0, false, false, 5);
    var c1 := c.(st := WithObjects(ONE_CREATED));
    ObjectsAreCreated();
    CallGoesOn(tab, ONE_CREATED);
    assert InterpStmt(w, tab, CREATE_AND_CALL[0], c) == Done(c1);
    assert CREATE_AND_CALL[1..] == [Evaluate(CALL)];
    var c2 := c1.(st := SetSite(c1.st, 1, SiteOf(AFTER, 1)));
    assert InterpStmt(w, tab, [Evaluate(CALL)][0], c1) == Done(c2);
    assert [Evaluate(CALL)][1..] == [] && InterpBody(w, tab, [], c2) == Done(c2);
    assert InterpBody(w, tab, [Evaluate(CALL)], c1) == Done(c2);
  }

  lemma CreationMisses(a: Activation)
    requires a == Method(CREATE_AND_CALL)
    ensures GuardedRun(Allocating(), a, GUARDS, 3, [OBJECT], BEFORE.(mem := map[]), 5)
         == Missed(1, WithObjects(ONE_CREATED), 5)
  {
    MethodEntry(a.decl.body, OBJECT, BEFORE.(mem := map[]));
    CreateThenMiss(CompiledSymbols(a));
  }

  lemma CreationIsInterpreted(a: Activation)
    requires a == Method(CREATE_AND_CALL)
    ensures InterpretFunction(Allocating(), a, 3, [OBJECT], BEFORE.(mem := map[]), 5, 0)
         == Result(0, SetSite(WithObjects(ONE_CREATED), 1, SiteOf(AFTER, 1)), 5)
  {
    MethodEntry(a.decl.body, OBJECT, BEFORE.(mem := map[]));
    CreatedOnce(InterpretedTable(a));
  }

  /** `func g(x) { new C; x.m(); }` creates one object when interpreted, and two when it exits at the call. */
  lemma NewIsEvaluatedAgain(a: Activation, st: State, exit: Outcome)
    requires a == Method(CREATE_AND_CALL) && st == BEFORE.(mem := map[])
    requires exit == Missed(1, WithObjects(ONE_CREATED), 5)
    ensures GuardedRun(Allocating(), a, GUARDS, 3, [OBJECT], st, 5) == exit
    ensures Finish(Allocating(), a, 1, FinalOf(a, exit), 0)
         == Result(0, SetSite(WithObjects(TWO_CREATED), 1, SiteOf(AFTER, 1)), 5)
    ensures InterpretFunction(Allocating(), a, 3, [OBJECT], st, 5, 0)
         == Result(0, SetSite(WithObjects(ONE_CREATED), 1, SiteOf(AFTER, 1)), 5)
    ensures THIRD in TWO_CREATED && THIRD !in ONE_CREATED
  {
    CreationMisses(a);
    CreatedTwice(a, WithObjects(ONE_CREATED));
    CreationIsInterpreted(a);
  }

  /* ---- Receivers that are lost ---- */

  /** Closures return `OBJECT`. */
  function Handing(): World {
    Answering(17).(closure := (st: State, obj: Word, vs: seq<Word>) => CallResult.Ret(OBJECT, st))
  }

  const HANDED: Expr := MethodCall(1, ClosureCall(VarRef("x"), []), "m", [])

  lemma HandedMisses(tab: Table)
    requires Resolve(tab, "x") == Param(0)
    ensures ExecBody(Handing(), tab, GUARDS, [Return(HANDED)], Entered(OTHER), 5) == Missed(1, Entered(OTHER), 5)
    ensures EvalExpr(Handing(), tab, HANDED, Entered(OTHER)) == Val(17, SetSite(Entered(OTHER), 1, SiteOf(AFTER, 1)))
  {
    var w := Handing();
    var st := Entered(OTHER);
    assert EvalArgs(w, tab, [], st) == Vals([], st);
    assert ExecArgs(w, tab, GUARDS, [], st) == Values([], st);
    assert ExecExpr(w, tab, GUARDS, VarRef("x"), st) == Value(OTHER, st);
    assert EvalExpr(w, tab, ClosureCall(VarRef("x"), []), st) == Val(OBJECT, st);
    assert ExecExpr(w, tab, GUARDS, ClosureCall(VarRef("x"), []), st) == Value(OBJECT, st);
    assert TestGuard(GUARDS[1], st.heap, OBJECT) == Fail;
    assert Dispatch(w, 1, "m", OBJECT, [], st) == Val(17, SetSite(st, 1, SiteOf(AFTER, 1)));
    assert ExecExpr(w, tab, GUARDS, HANDED, st) == Miss(1, st);
    assert ExecStmt(w, tab, GUARDS, [Return(HANDED)][0], st, 5) == Missed(1, st, 5);
  }

  lemma HandedIsLost(tab: Table, c: Ctx)
    requires !c.found && !c.isReturning
    ensures SkipBody(Handing(), tab, [Return(HANDED)], 1, c) == Crashed
  {
    assert SearchedExpr(HANDED.callee) == {};
    LostReceiver(Handing(), tab, HANDED, 1, OBJECT, c);
    assert SkipStmt(Handing(), tab, [Return(HANDED)][0], 1, c) == Crashed;
  }

  /** `func g(x) { return x().m(); }` fails after an exit from the call of `m`, on a null receiver. */
  lemma ReceiverIsLost()
    ensures var a := Method([Return(HANDED)]);
            var st := BEFORE.(mem := map[]);
            var o := GuardedRun(Handing(), a, GUARDS, 3, [OTHER], st, 5);
            && o == Missed(1, Entered(OTHER), 5)
            && Finish(Handing(), a, 1, FinalOf(a, o), 0) == Crash
            && InterpretFunction(Handing(), a, 3, [OTHER], st, 5, 0)
               == Result(17, SetSite(Entered(OTHER), 1, SiteOf(AFTER, 1)), 5)
  {
    var a := Method([Return(HANDED)]);
    MethodEntry(a.decl.body, OTHER, BEFORE.(mem := map[]));
    HandedMisses(CompiledSymbols(a));
    ParameterIsRebuilt(Handing(), a.decl.body, a.ivars, Entered(OTHER));
    ExitIsSearched(Handing(), a, Entered(OTHER), 5, 0);
    HandedIsLost(Rebuild(Handing(), a.decl, Entered(OTHER), FrameOf(a)), Ctx(Entered(OTHER), 0, false, false, 5));
    HandedMisses(InterpretedTable(a));
    ReturnedValue(Handing(), InterpretedTable(a), HANDED, Ctx(Entered(OTHER), 0, false, false, 5));
  }

  /* ---- Closures ---- */

  /** `func k() { var y = <name>; }`: the initialiser is not looked into, so the name is not captured. */
  function Initialising(name: string): Closure {
    Closure("k", [], ["y"], [], [Decl("y", Some(VarRef(name)))])
  }

  lemma InitialiserIsChecked(name: string)
    ensures Closures.Checked(Initialising(name))
  {
    var c := Initialising(name);
    assert c.body[1..] == [] && Closures.StmtUses(c.body[0]) == {} && Closures.StmtDecls(c.body[0]) == {"y"};
    assert Closures.BodyUses([]) == {} && Closures.BodyDecls([]) == {};
    assert Closures.BodyUses(c.body) == {} && Closures.BodyDecls(c.body) == {} + {"y"};
  }

  /** An exit from `func k() { var y = cmd; }`, where `cmd` is a global, leaves that bound to null. */
  lemma ClosureForgetsCmd(w: World, self: Word, st: State)
    ensures var a := Activation(Initialising("cmd"), false, self, [], []);
            var s := ClosureSymbols(a);
            && Closures.Checked(a.decl) && Stored(a.decl, s) && Resolve(s, "cmd") == Global("cmd")
            && Resolve(Rebuild(w, a.decl, st, PatchpointFrame(a.decl, s)), "cmd") == Null
  {
    var a := Activation(Initialising("cmd"), false, self, [], []);
    var s := ClosureSymbols(a);
    InitialiserIsChecked("cmd");
    ClosureIsStored(a);
    ClosureSymbolOf(a, "cmd");
    FrameParts(a.decl, s);
    RebuiltEntry(w, a.decl, s, st, "cmd");
  }

  /** In `func k() { var y = self; }` compiled code finds the closure, and the interpreter a global of that name. */
  lemma ClosureSeesSelf(self: Word)
    ensures var a := Activation(Initialising("self"), false, self, [], []);
            && Closures.Checked(a.decl)
            && Resolve(ClosureSymbols(a), "self") == SelfSlot && Resolve(ClosureTable(a), "self") == Global("self")
  {
    var a := Activation(Initialising("self"), false, self, [], []);
    InitialiserIsChecked("self");
    ClosureSymbolOf(a, "self");
    var t: Table := Bind(map[], [], Params(0));
    BindElsewhere(Bind(t, [], Fields(self, BOUND_BASE, 0)), ["y"], Locals(1), "self");
  }

  /** A closure over `a` and `b`, created by the interpreter when `a` is 1 and `b` is 2, finds 1 in both. */
  lemma SecondVariableIsLost(w: World)
    ensures var c := Closure("k", [], [], ["a", "b"], [Evaluate(VarRef("a")), Evaluate(VarRef("b"))]);
            var tab: Table := map["a" := Local(0), "b" := Local(1), "k" := Local(2)];
            var st := State(map[Local(0) := Encode(1), Local(1) := Encode(2), Local(2) := 0], map[], map[]);
            var r := EvalClosure(w, tab, c, st);
            && r.Val?
            && LookupSymbol(tab, r.st, "b") == Encode(2)
            && LookupSymbol(ClosureTable(Closures.Entered(c, r.v)), r.st, "b") == Encode(1)
  {
    var c := Closure("k", [], [], ["a", "b"], [Evaluate(VarRef("a")), Evaluate(VarRef("b"))]);
    var tab: Table := map["a" := Local(0), "b" := Local(1), "k" := Local(2)];
    var st := State(map[Local(0) := Encode(1), Local(1) := Encode(2), Local(2) := 0], map[], map[]);
    BothAreCaptured(c);
    Closures.InterpretedVariable(w, tab, c, st, 1);
  }

  lemma BothAreCaptured(c: Closure)
    requires c.body == [Evaluate(VarRef("a")), Evaluate(VarRef("b"))] && c.boundVars == ["a", "b"]
    requires c.params == [] && c.decls == []
    ensures Closures.Checked(c)
  {
    var body := c.body;
    assert Closures.BodyUses(body[2..]) == {} && Closures.BodyDecls(body[2..]) == {};
    assert body[1..][1..] == body[2..] && body[1..][0] == body[1];
    assert forall x: string :: Closures.ExprUses(VarRef(x)) == {x} && Closures.ExprDecls(VarRef(x)) == {};
    assert Closures.StmtUses(body[1]) == {"b"} && Closures.StmtDecls(body[1]) == {};
    assert Closures.StmtUses(body[0]) == {"a"} && Closures.StmtDecls(body[0]) == {};
    assert Closures.BodyUses(body[1..]) == {"b"} && Closures.BodyDecls(body[1..]) == {};
    assert Closures.BodyUses(body) == {"a", "b"} && Closures.BodyDecls(body) == {};
  }
}
