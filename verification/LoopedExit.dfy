/**
 `func g(x) { while x() { 1.h(f.m()); } }`, where two classes inherit one `m` and
 the closure `x` turns the instance variable `f` to an object of one class, to one
 of the other, and back: an exit from a call in an argument that happens to be
 right, because the loop comes back to where the exit left it.
 */
module LoopedExit {
  import opened Tagged
  import opened Ast
  import opened Runtime
  import opened Interpreter
  import opened SearchLemmas
  import opened Continuation
  import opened Guarded
  import opened Frames
  import opened Deopt
  import opened LostExits
  import opened Witnesses

  const LEFT: Word := 1104
  const RIGHT: Word := 1200

  /** The class that was compiled in, and the method slot that both classes have. */
  const LEFT_GUARD: Guards := map[1 := Baked(EXPECTED_CLASS, 7)]

  /** The closure sets `f` and is false when it turns back to the object of the exit. */
  function Turn(st: State): CallResult {
    var f := Load(st, Field(OBJECT, 1));
    CallResult.Ret(if f == LEFT then 0 else Encode(1), Store(st, Field(OBJECT, 1), if f == RIGHT then LEFT else RIGHT))
  }

  function Turning(): World {
    Answering(0).(closure := (st: State, obj: Word, vs: seq<Word>) => Turn(st))
  }

  const CONDITION: Expr := ClosureCall(VarRef("x"), [])
  const INNER: Expr := MethodCall(1, VarRef("f"), "m", [])
  const AROUND: Expr := MethodCall(2, Number(1), "h", [INNER])
  const LOOP: Stmt := While(CONDITION, [Evaluate(AROUND)])

  /** The profile of the inner call after a missed call, and before it. */
  const MARKED: Site := Site(EXPECTED_CLASS, ACTUAL_CLASS, 1, 7)
  const UNMARKED: Site := Site(EXPECTED_CLASS, ACTUAL_CLASS, 0, 7)

  function HeapWith(f: Word): Heap {
    map[OBJECT := [ACTUAL_CLASS, f], LEFT := [EXPECTED_CLASS], RIGHT := [ACTUAL_CLASS]]
  }

  function SitesWith(site: Site): map<nat, Site> {
    map[1 := site, 2 := Site(SMALL_INT_CLASS, 0, 0, 7)]
  }

  function Now(f: Word, site: Site): State {
    State(Entered(OTHER).mem, HeapWith(f), SitesWith(site))
  }

  predicate Resolves(tab: Table) {
    Resolve(tab, "x") == Param(0) && Resolve(tab, "f") == Field(OBJECT, 1)
  }

  lemma Turns(f: Word, site: Site)
    ensures Turn(Now(f, site))
         == CallResult.Ret(if f == LEFT then 0 else Encode(1), Now(if f == RIGHT then LEFT else RIGHT, site))
  {
    var f' := if f == RIGHT then LEFT else RIGHT;
    HeapTurns(f, f');
    assert Store(Now(f, site), Field(OBJECT, 1), f') == Now(f', site);
  }

  lemma HeapTurns(f: Word, f': Word)
    ensures HeapWith(f)[OBJECT] == [ACTUAL_CLASS, f]
    ensures var fields: seq<Word> := HeapWith(f)[OBJECT][1 := f']; HeapWith(f)[OBJECT := fields] == HeapWith(f')
  {
    assert HeapWith(f)[OBJECT][1 := f'] == [ACTUAL_CLASS, f'];
  }

  lemma ConditionTurns(tab: Table, f: Word, site: Site)
    requires Resolves(tab)
    ensures var st' := Now(if f == RIGHT then LEFT else RIGHT, site);
            var v := if f == LEFT then 0 else Encode(1);
            && EvalExpr(Turning(), tab, CONDITION, Now(f, site)) == Val(v, st')
            && ExecExpr(Turning(), tab, LEFT_GUARD, CONDITION, Now(f, site)) == Value(v, st')
  {
    var w := Turning();
    var st := Now(f, site);
    Turns(f, site);
    assert EvalExpr(w, tab, VarRef("x"), st) == Val(OTHER, st);
    assert ExecExpr(w, tab, LEFT_GUARD, VarRef("x"), st) == Value(OTHER, st);
    assert EvalArgs(w, tab, [], st) == Vals([], st) && ExecArgs(w, tab, LEFT_GUARD, [], st) == Values([], st);
  }

  /** What the two calls of a pass leave of the inner call's profile. */
  lemma InnerCalls(tab: Table, f: Word)
    requires Resolves(tab) && (f == LEFT || f == RIGHT)
    ensures var before, after := if f == LEFT then MARKED else UNMARKED, if f == LEFT then UNMARKED else MARKED;
            EvalExpr(Turning(), tab, INNER, Now(f, before)) == Val(0, Now(f, after))
  {
    if f == LEFT {
      InnerCallDispatches(tab, LEFT, MARKED, UNMARKED);
    } else {
      InnerCallDispatches(tab, RIGHT, UNMARKED, MARKED);
    }
  }

  lemma InnerCallDispatches(tab: Table, f: Word, before: Site, after: Site)
    requires Resolves(tab)
    requires (f == LEFT && before == MARKED && after == UNMARKED)
             || (f == RIGHT && before == UNMARKED && after == MARKED)
    ensures EvalExpr(Turning(), tab, INNER, Now(f, before)) == Val(0, Now(f, after))
  {
    var w := Turning();
    var st := Now(f, before);
    InnerCallMarks(f, before, after);
    assert EvalExpr(w, tab, VarRef("f"), st) == Val(f, st);
    assert EvalArgs(w, tab, [], st) == Vals([], st);
  }

  lemma InnerCallMarks(f: Word, before: Site, after: Site)
    requires (f == LEFT && before == MARKED && after == UNMARKED)
             || (f == RIGHT && before == UNMARKED && after == MARKED)
    ensures Dispatch(Turning(), 1, "m", f, [], Now(f, before)) == Val(0, Now(f, after))
  {
    assert Now(f, before).sites[1 := after] == SitesWith(after);
  }

  lemma OuterCall(st: State)
    requires 2 in st.sites && st.sites[2] == Site(SMALL_INT_CLASS, 0, 0, 7)
    ensures Dispatch(Turning(), 2, "h", Encode(1), [0], st) == Val(0, st)
  {
    assert st.sites[2 := Site(SMALL_INT_CLASS, 0, 0, 7)] == st.sites;
  }

  lemma PassCalls(tab: Table, f: Word, c: Ctx)
    requires Resolves(tab) && (f == LEFT || f == RIGHT) && !c.isReturning
    requires c.st == Now(f, if f == LEFT then MARKED else UNMARKED)
    ensures InterpBody(Turning(), tab, [Evaluate(AROUND)], c)
         == Done(c.(st := Now(f, if f == LEFT then UNMARKED else MARKED)))
  {
    var w := Turning();
    var st' := Now(f, if f == LEFT then UNMARKED else MARKED);
    InnerCalls(tab, f);
    assert EvalArgs(w, tab, [], st') == Vals([], st');
    assert EvalArgs(w, tab, [INNER], c.st) == Vals([0], st');
    OuterCall(st');
    assert EvalExpr(w, tab, Number(1), c.st) == Val(Encode(1), c.st);
    assert EvalExpr(w, tab, AROUND, c.st) == Val(0, st');
    assert InterpStmt(w, tab, [Evaluate(AROUND)][0], c) == Done(c.(st := st'));
  }

  lemma FirstPassMisses(tab: Table)
    requires Resolves(tab)
    ensures ExecBody(Turning(), tab, LEFT_GUARD, [LOOP], Now(0, UNMARKED), 5) == Missed(1, Now(RIGHT, UNMARKED), 4)
  {
    var w := Turning();
    var st := Now(RIGHT, UNMARKED);
    ConditionTurns(tab, 0, UNMARKED);
    assert ExecExpr(w, tab, LEFT_GUARD, VarRef("f"), st) == Value(RIGHT, st);
    assert ExecArgs(w, tab, LEFT_GUARD, [], st) == Values([], st);
    assert TestGuard(LEFT_GUARD[1], st.heap, RIGHT) == Fail;
    assert ExecExpr(w, tab, LEFT_GUARD, INNER, st) == Miss(1, st);
    assert ExecArgs(w, tab, LEFT_GUARD, [INNER], st) == ArgsMiss(1, st);
    assert ExecExpr(w, tab, LEFT_GUARD, AROUND, st) == Miss(1, st);
    assert ExecStmt(w, tab, LEFT_GUARD, [Evaluate(AROUND)][0], st, 4) == Missed(1, st, 4);
    assert ExecBody(w, tab, LEFT_GUARD, [Evaluate(AROUND)], st, 4) == Missed(1, st, 4);
    assert ExecLoop(w, tab, LEFT_GUARD, CONDITION, [Evaluate(AROUND)], Now(0, UNMARKED), 5) == Missed(1, st, 4);
    assert ExecStmt(w, tab, LEFT_GUARD, [LOOP][0], Now(0, UNMARKED), 5) == Missed(1, st, 4);
  }

  lemma PassOfLoop(w: World, tab: Table, cond: Expr, body: seq<Stmt>, v: Word, st: State, c: Ctx, c': Ctx)
    requires !c.isReturning && c.gas > 0 && Truthy(v) && EvalExpr(w, tab, cond, c.st) == Val(v, st)
    requires InterpBody(w, tab, body, c.(st := st, gas := c.gas - 1)) == Done(c')
    ensures InterpLoop(w, tab, cond, body, c) == InterpLoop(w, tab, cond, body, c')
  {
    LoopUnfolds(w, tab, cond, body, Val(v, st), c);
  }

  /** One pass of the loop, from test to test. */
  lemma PassTurns(tab: Table, f: Word, c: Ctx)
    requires Resolves(tab) && (f == 0 || f == RIGHT) && !c.isReturning && c.gas > 0
    requires c.st == Now(f, if f == 0 then UNMARKED else MARKED)
    ensures var st' := Now(if f == 0 then RIGHT else LEFT, if f == 0 then MARKED else UNMARKED);
            var c' := c.(st := st', gas := c.gas - 1);
            InterpLoop(Turning(), tab, CONDITION, [Evaluate(AROUND)], c)
            == InterpLoop(Turning(), tab, CONDITION, [Evaluate(AROUND)], c')
  {
    var f' := if f == RIGHT then LEFT else RIGHT;
    var st := Now(f', if f == 0 then UNMARKED else MARKED);
    var c' := c.(st := Now(f', if f == 0 then MARKED else UNMARKED), gas := c.gas - 1);
    ConditionTurns(tab, f, if f == 0 then UNMARKED else MARKED);
    PassCalls(tab, f', c.(st := st, gas := c.gas - 1));
    PassOfLoop(Turning(), tab, CONDITION, [Evaluate(AROUND)], Encode(1), st, c, c');
  }

  lemma LoopTurnsBack(tab: Table)
    requires Resolves(tab)
    ensures var c := Ctx(Now(0, UNMARKED), 0, false, false, 5);
            InterpBody(Turning(), tab, [LOOP], c) == Done(Ctx(Now(RIGHT, UNMARKED), 0, false, false, 3))
  {
    var w := Turning();
    var c := Ctx(Now(0, UNMARKED), 0, false, false, 5);
    var c1 := Ctx(Now(RIGHT, MARKED), 0, false, false, 4);
    var c2 := Ctx(Now(LEFT, UNMARKED), 0, false, false, 3);
    PassTurns(tab, 0, c);
    PassTurns(tab, RIGHT, c1);
    ConditionTurns(tab, LEFT, UNMARKED);
    LoopUnfolds(w, tab, CONDITION, [Evaluate(AROUND)], EvalExpr(w, tab, CONDITION, c2.st), c2);
    assert InterpStmt(w, tab, [LOOP][0], c) == Done(Ctx(Now(RIGHT, UNMARKED), 0, false, false, 3));
  }

  lemma LoopIsUnsearched()
    ensures 1 !in SearchedBody([LOOP]) && NewsInBody([LOOP]) == []
  {
    var body := [Evaluate(AROUND)];
    assert SearchedExpr(Number(1)) == {} && NewsInExpr(Number(1)) == [];
    assert SearchedExpr(AROUND) == {2} && NewsInExpr(AROUND) == [];
    assert SearchedBody(body[1..]) == {} && NewsInBody(body[1..]) == [];
    assert SearchedStmt(body[0]) == {2} && NewsInStmt(body[0]) == [];
    assert SearchedExpr(CONDITION) == {} && NewsInExpr(CONDITION) == [];
    assert SearchedStmt([LOOP][0]) == {2} && NewsInStmt([LOOP][0]) == [];
    assert SearchedBody([LOOP][1..]) == {} && NewsInBody([LOOP][1..]) == [];
  }

  lemma LoopEntry()
    ensures var a := Method([LOOP]);
            && EntryState(a, 3, [OTHER], Now(0, UNMARKED).(mem := map[])) == Now(0, UNMARKED)
            && Resolves(CompiledSymbols(a)) && Resolves(InterpretedTable(a))
  {
    MethodEntry([LOOP], OTHER, Now(0, UNMARKED).(mem := map[]));
    MethodTablesAgree(Method([LOOP]), "f");
  }

  /** The exit is right in value and state; only the loop budget is not that of interpretation. */
  lemma ExitInLoopIsRight(records: nat)
    ensures var a := Method([LOOP]);
            var st := Now(0, UNMARKED).(mem := map[]);
            var o := GuardedRun(Turning(), a, LEFT_GUARD, 3, [OTHER], st, 5);
            && o == Missed(1, Now(RIGHT, UNMARKED), 4)
            && Finish(Turning(), a, records, FinalOf(a, o), 0) == Result(0, Now(RIGHT, UNMARKED), 4)
            && InterpretFunction(Turning(), a, 3, [OTHER], st, 5, 0) == Result(0, Now(RIGHT, UNMARKED), 3)
  {
    var a := Method([LOOP]);
    LoopEntry();
    FirstPassMisses(CompiledSymbols(a));
    LoopIsUnsearched();
    UnsearchedExitEndsFunction(Turning(), a, records, Missed(1, Now(RIGHT, UNMARKED), 4), 0);
    LoopTurnsBack(InterpretedTable(a));
  }
}
