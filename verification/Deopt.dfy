/**
 Whole functions: compiled entry, guarded body, side exit, and the comparison
 with interpreting the same activation from the start.
 */
module Deopt {
  import opened Tagged
  import opened Ast
  import opened Runtime
  import opened Interpreter
  import opened SearchLemmas
  import opened Guarded
  import opened CompiledRun
  import opened Continuation
  import opened Resume
  import opened Scoping
  import opened Frames
  import opened Ir
  import opened CodeGen
  import opened Blocks
  import opened ExprCode
  import opened StmtCode

  /** What a call of the function comes to. */
  datatype Result = Result(v: Word, st: State, gas: nat) | Crash | NoGas

  /* ---- The entry block ---- */

  function StoreRegs(addrs: seq<Addr>, base: nat): (s: seq<Instr>)
    ensures |s| == |addrs|
  {
    seq(|addrs|, i requires 0 <= i < |addrs| => StoreVar(addrs[i], Reg(base + i)))
  }

  function StoreNulls(addrs: seq<Addr>): (s: seq<Instr>)
    ensures |s| == |addrs|
  {
    seq(|addrs|, i requires 0 <= i < |addrs| => StoreVar(addrs[i], Imm(0)))
  }

  /** Registers 0 and 1 hold the receiver and the selector, the next ones the arguments. */
  function EntryHead(a: Activation): Block {
    var n := |a.decl.params|;
    [SetCurrent, StoreVar(SelfSlot, Reg(0))]
    + if a.isMethod then [BoxInt(n + 2, Reg(1)), StoreVar(CmdSlot, Reg(n + 2))] else []
  }

  function EntryBlock(a: Activation): Block {
    EntryHead(a) + StoreRegs(Params(|a.decl.params|), 2) + StoreNulls(Locals(|a.decl.decls|))
  }

  function InitialReg(self: Word, sel: Word, args: seq<Word>, i: nat): Word
    requires i < |args| + 2
  {
    if i == 0 then self else if i == 1 then sel else args[i - 2]
  }

  function InitialRegs(self: Word, sel: Word, args: seq<Word>): Regs {
    map i: nat | 0 <= i < |args| + 2 :: InitialReg(self, sel, args, i)
  }

  function Start(a: Activation, sel: Word, args: seq<Word>, st: State, gas: nat): Config {
    Running(Live(0, 0, InitialRegs(a.self, sel, args), st, gas))
  }

  /* ---- The generated function ---- */

  /**
   The operands of the function's patchpoints. Without storage for every variable
   there are none: a guarded call in such a function does not compile.
   */
  function FrameOf(a: Activation): seq<Addr> {
    if Stored(a.decl, CompiledSymbols(a)) then PatchpointFrame(a.decl, CompiledSymbols(a)) else []
  }

  /** The compiler gets through: there is no patchpoint, or every variable has storage. */
  predicate Compiles(a: Activation, guards: Guards) {
    Records(CodeOf(a, guards)) == 0 || Stored(a.decl, CompiledSymbols(a))
  }

  function UnitOf(a: Activation, guards: Guards): Unit {
    Unit(CompiledSymbols(a), FrameOf(a), guards)
  }

  function EntryFn(a: Activation): Fn {
    Fn([EntryBlock(a)], Some(0), |a.decl.params| + 3)
  }

  /** The body after the entry block, and a null return if control can fall off its end. */
  function GenFunction(a: Activation, guards: Guards): Fn {
    var b := GenBody(UnitOf(a, guards), a.decl.body, EntryFn(a));
    ClearInsert(Emit(b, Instr.Ret(Imm(0))))
  }

  function CodeOf(a: Activation, guards: Guards): seq<Block> {
    GenFunction(a, guards).blocks
  }

  function PatchpointsIn(bl: Block): nat {
    if bl == [] then 0 else (if bl[0].Patchpoint? then 1 else 0) + PatchpointsIn(bl[1..])
  }

  /** The number of records in the function's stack map. */
  function Records(code: seq<Block>): nat {
    if code == [] then 0 else PatchpointsIn(code[0]) + Records(code[1..])
  }

  /** Every block of a finished function ends in exactly one terminator, whose targets exist. */
  lemma FunctionIsWellFormed(a: Activation, guards: Guards)
    ensures var code := CodeOf(a, guards);
            forall j :: 0 <= j < |code| ==> Closed(code[j], |code|)
  {
    var b0 := EntryFn(a);
    EntryIsOpen(a);
    GenBodyGrows(UnitOf(a, guards), a.decl.body, b0);
    var b := GenBody(UnitOf(a, guards), a.decl.body, b0);
    if b.cur.Some? {
      EmitCloses(b, Instr.Ret(Imm(0)), |b.blocks|);
    }
  }

  lemma EntryIsOpen(a: Activation)
    ensures Ready(EntryFn(a))
  {
  }

  /* ---- Running the entry block ---- */

  /** The machine in block 0, which begins with `done`, after executing it. */
  ghost predicate RanEntry(w: World, code: seq<Block>, start: Config, done: Block, regs: Regs, st: State, gas: nat) {
    Reaches(w, code, start, Running(Live(0, |done|, regs, st, gas)))
  }

  lemma RunNext(
    w: World, code: seq<Block>, start: Config, done: Block, i: Instr, regs: Regs, st: State, gas: nat)
    requires code != [] && done + [i] <= code[0]
    requires RanEntry(w, code, start, done, regs, st, gas)
    ensures Reaches(w, code, start, RunInstr(w, i, Live(0, |done|, regs, st, gas)))
  {
    assert code[0][|done|] == (done + [i])[|done|] == i;
    ReachesStep(w, code, start, Running(Live(0, |done|, regs, st, gas)));
  }

  /** Storing operands into slots, one instruction after another. */
  lemma {:induction false} RunStores(
    w: World, code: seq<Block>, start: Config, done: Block, addrs: seq<Addr>, os: seq<Operand>, vs: seq<Word>,
    stores: seq<Instr>, regs: Regs, st: State, gas: nat)
    requires |addrs| == |os| == |vs| == |stores|
    requires forall i :: 0 <= i < |addrs| ==> stores[i] == StoreVar(addrs[i], os[i]) && ValueOf(regs, os[i]) == vs[i]
    requires code != [] && done + stores <= code[0]
    requires RanEntry(w, code, start, done, regs, st, gas)
    ensures RanEntry(w, code, start, done + stores, regs, StoreAll(st, addrs, vs), gas)
    decreases |addrs|
  {
    var n := |addrs|;
    if n > 0 {
      var front := stores[..n - 1];
      assert done + front <= done + stores;
      RunStores(w, code, start, done, addrs[..n - 1], os[..n - 1], vs[..n - 1], front, regs, st, gas);
      assert done + front + [stores[n - 1]] == done + stores;
      RunNext(w, code, start, done + front, stores[n - 1], regs, StoreAll(st, addrs[..n - 1], vs[..n - 1]), gas);
    } else {
      assert done + stores == done;
    }
  }

  lemma RunHead(
    w: World, code: seq<Block>, a: Activation, sel: Word, args: seq<Word>, st: State, gas: nat) returns (regs: Regs)
    requires |args| == |a.decl.params|
    requires code != [] && EntryHead(a) <= code[0]
    ensures var st1 := Store(st, SelfSlot, a.self);
            var st2 := if a.isMethod then Store(st1, CmdSlot, Encode(Signed(sel))) else st1;
            RanEntry(w, code, Start(a, sel, args, st, gas), EntryHead(a), regs, st2, gas)
    ensures forall i :: 0 <= i < |args| ==> ValueOf(regs, Reg(2 + i)) == args[i]
  {
    var n := |a.decl.params|;
    var start := Start(a, sel, args, st, gas);
    regs := InitialRegs(a.self, sel, args);
    ReachesSelf(w, code, start);
    RunNext(w, code, start, [], SetCurrent, regs, st, gas);
    assert [SetCurrent, StoreVar(SelfSlot, Reg(0))] <= EntryHead(a);
    assert [SetCurrent] + [StoreVar(SelfSlot, Reg(0))] == [SetCurrent, StoreVar(SelfSlot, Reg(0))];
    RunNext(w, code, start, [SetCurrent], StoreVar(SelfSlot, Reg(0)), regs, st, gas);
    if a.isMethod {
      var st1 := Store(st, SelfSlot, a.self);
      var two := [SetCurrent, StoreVar(SelfSlot, Reg(0))];
      var three := two + [BoxInt(n + 2, Reg(1))];
      assert three + [StoreVar(CmdSlot, Reg(n + 2))] == EntryHead(a);
      RunNext(w, code, start, two, BoxInt(n + 2, Reg(1)), regs, st1, gas);
      regs := regs[n + 2 := Encode(Signed(sel))];
      RunNext(w, code, start, three, StoreVar(CmdSlot, Reg(n + 2)), regs, st1, gas);
    }
  }

  lemma RunEntry(
    w: World, code: seq<Block>, a: Activation, sel: Word, args: seq<Word>, st: State, gas: nat) returns (regs: Regs)
    requires |args| == |a.decl.params|
    requires code != [] && EntryBlock(a) <= code[0]
    ensures RanEntry(w, code, Start(a, sel, args, st, gas), EntryBlock(a), regs, EntryState(a, sel, args, st), gas)
  {
    var n, m := |args|, |a.decl.decls|;
    var start := Start(a, sel, args, st, gas);
    var head := EntryHead(a);
    var params := StoreRegs(Params(n), 2);
    var locals := StoreNulls(Locals(m));
    assert head <= head + params <= head + params + locals == EntryBlock(a);
    regs := RunHead(w, code, a, sel, args, st, gas);
    var st1 := Store(st, SelfSlot, a.self);
    var st2 := if a.isMethod then Store(st1, CmdSlot, Encode(Signed(sel))) else st1;
    var incoming := seq(n, i requires 0 <= i < n => Reg(2 + i));
    RunStores(w, code, start, head, Params(n), incoming, args, params, regs, st2, gas);
    var st3 := StoreAll(st2, Params(n), args);
    RunStores(w, code, start, head + params, Locals(m), seq(m, _ => Imm(0)), Zeros(m), locals, regs, st3, gas);
  }

  /* ---- The compiled function ---- */

  function GuardedRun(w: World, a: Activation, guards: Guards, sel: Word, args: seq<Word>, st: State, gas: nat): Outcome
    requires |args| == |a.decl.params|
  {
    ExecBody(w, CompiledSymbols(a), guards, a.decl.body, EntryState(a, sel, args, st), gas)
  }

  /** The same without stopping where the interpreter would do something else. */
  function WholeRun(w: World, a: Activation, guards: Guards, sel: Word, args: seq<Word>, st: State, gas: nat): Outcome
    requires |args| == |a.decl.params|
  {
    JitBody(w, CompiledSymbols(a), guards, a.decl.body, EntryState(a, sel, args, st), gas)
  }

  /** The final configuration that an outcome stands for. */
  function FinalOf(a: Activation, o: Outcome): Config {
    match o
    case Normal(st, gas) => Halted(0, st, gas)
    case Returned(v, st, gas) => Halted(v, st, gas)
    case Missed(id, st, gas) => Exited(id, FrameOf(a), st, gas)
    case Faulted => Trap
    case Exhausted => GasOut
    case Parted => Wild
  }

  /**
   Code generation preserves meaning: on every input the emitted blocks, run from
   the entry, end as the compiled run of the body does, with null when control falls
   off the end.
   */
  lemma CompiledFunctionRuns(
    w: World, a: Activation, guards: Guards, sel: Word, args: seq<Word>, st: State, gas: nat)
    requires |args| == |a.decl.params|
    ensures Reaches(w, CodeOf(a, guards), Start(a, sel, args, st, gas),
                    FinalOf(a, WholeRun(w, a, guards, sel, args, st, gas)))
  {
    var u := UnitOf(a, guards);
    var code := CodeOf(a, guards);
    var start := Start(a, sel, args, st, gas);
    var b0 := EntryFn(a);
    var b := GenBody(u, a.decl.body, b0);
    var st0 := EntryState(a, sel, args, st);
    CoversEarlier(code, b, Emit(b, Instr.Ret(Imm(0))));
    CoversEarlier(code, b0, b);
    assert b0.blocks[0] <= code[0];
    EntryIsOpen(a);
    var regs := RunEntry(w, code, a, sel, args, st, gas);
    var regs1 := SimulateBody(w, code, u, start, a.decl.body, b0, regs, st0, gas);
    var o := WholeRun(w, a, guards, sel, args, st, gas);
    if o.Normal? {
      RunEmitted(w, code, start, b, Instr.Ret(Imm(0)), regs1, o.st, o.gas);
    }
  }

  /** As far as compiled and interpreted code do not part, the function ends as the guarded run does. */
  lemma GuardedFunctionRuns(
    w: World, a: Activation, guards: Guards, sel: Word, args: seq<Word>, st: State, gas: nat)
    requires |args| == |a.decl.params|
    requires !GuardedRun(w, a, guards, sel, args, st, gas).Parted?
    ensures Reaches(w, CodeOf(a, guards), Start(a, sel, args, st, gas),
                    FinalOf(a, GuardedRun(w, a, guards, sel, args, st, gas)))
  {
    CompiledFunctionRuns(w, a, guards, sel, args, st, gas);
    ExecBodyIsCompiled(w, CompiledSymbols(a), guards, a.decl.body, EntryState(a, sel, args, st), gas);
  }

  /* ---- The interpreted function and the side exit ---- */

  /**
   Interpreting the activation: the body, then the return value is taken out of
   the context. `retVal` is what the context holds on entry.
   */
  function InterpretFunction(
    w: World, a: Activation, sel: Word, args: seq<Word>, st: State, gas: nat, retVal: Word): Result
    requires |args| == |a.decl.params|
  {
    FromRun(InterpBody(w, InterpretedTable(a), a.decl.body,
                       Ctx(EntryState(a, sel, args, st), retVal, false, false, gas)))
  }

  function FromRun(r: Run): Result {
    match r
    case Done(c) => Result(c.retVal, c.st, c.gas)
    case Crashed => Crash
    case OutOfGas => NoGas
  }

  /**
   The end of a compiled run. A side exit rebuilds the symbol table, searches the
   body for the call and returns what the context then holds; with any number of
   stack-map records other than one it gives up and returns null.
   */
  function Finish(w: World, a: Activation, records: nat, f: Config, retVal: Word): Result {
    match f
    case Halted(v, st, gas) => Result(v, st, gas)
    case Exited(id, frame, st, gas) =>
      if records != 1 || |frame| != 2 + |a.decl.params| + |a.decl.decls| + |a.decl.boundVars| then Result(0, st, gas)
      else
        FromRun(SkipBody(w, Rebuild(w, a.decl, st, frame), a.decl.body, id, Ctx(st, retVal, false, false, gas)))
    case GasOut => NoGas
    case _ => Crash
  }

  /**
   The names of the body mean the same to the interpreter and to the compiler: no
   method mentions an instance variable that only one of the two classes has, or has
   elsewhere, or redeclares `self` or `cmd` and mentions it, and no closure mentions
   `self` without declaring it.
   */
  predicate CommonNames(a: Activation) {
    var names := BodyNames(a.decl.body);
    if a.isMethod then forall x | x in names :: MethodNameCommon(a, x)
    else "self" in names ==> Redeclared(a.decl, "self")
  }

  /** The table rebuilt at an exit in state `st` means what the compiler's meant, as far as the body goes. */
  ghost predicate FaithfulExit(w: World, a: Activation, st: State) {
    if a.isMethod then
      && Stored(a.decl, MethodSymbols(a))
      && forall x | x in BodyNames(a.decl.body) :: MethodNameFaithful(w, a, st, x)
    else forall x | x in BodyNames(a.decl.body) :: ClosureNameFaithful(w, a, st, x)
  }

  /** A closure's bound variables are apart from its parameters and locals, as `check` makes them. */
  predicate ProperlyBound(a: Activation) {
    !a.isMethod ==> BoundApart(a.decl)
  }

  /** Interpreted and compiled code start from the same table, as far as the body goes, exactly on common names. */
  lemma InterpretedAsCompiled(a: Activation)
    requires ProperlyBound(a)
    ensures SameOn(BodyNames(a.decl.body), InterpretedTable(a), CompiledSymbols(a)) <==> CommonNames(a)
  {
    forall x
      ensures a.isMethod ==>
                (Resolve(MethodTable(a), x) == Resolve(MethodSymbols(a), x) <==> MethodNameCommon(a, x))
      ensures !a.isMethod ==>
                (Resolve(ClosureTable(a), x) == Resolve(ClosureSymbols(a), x)
                 <==> x != "self" || Redeclared(a.decl, "self"))
    {
      if a.isMethod {
        MethodTablesAgree(a, x);
      } else {
        ClosureTablesAgree(a, x);
      }
    }
  }

  /** The rebuilt table is the compiler's, as far as the body goes, exactly at faithful exits. */
  lemma RebuiltAsCompiled(w: World, a: Activation, st: State)
    requires Stored(a.decl, CompiledSymbols(a))
    ensures var s := CompiledSymbols(a);
            SameOn(BodyNames(a.decl.body), Rebuild(w, a.decl, st, PatchpointFrame(a.decl, s)), s)
            <==> FaithfulExit(w, a, st)
  {
    var s := CompiledSymbols(a);
    forall x | x in BodyNames(a.decl.body)
      ensures Resolve(Rebuild(w, a.decl, st, PatchpointFrame(a.decl, s)), x) == Resolve(s, x)
              <==> if a.isMethod then MethodNameFaithful(w, a, st, x) else ClosureNameFaithful(w, a, st, x)
    {
      if a.isMethod {
        MethodFrameRoundTrip(w, a, st, x);
      } else {
        ClosureFrameRoundTrip(w, a, st, x);
      }
    }
  }

  /** What the theorems about side exits ask of a run: it does not part, and its exit can be resumed. */
  ghost predicate Resumes(w: World, a: Activation, guards: Guards, o: Outcome) {
    && !o.Parted?
    && (o.Missed? ==>
          && Records(CodeOf(a, guards)) == 1
          && ResumableBody(a.decl.body, o.id)
          && FaithfulExit(w, a, o.st))
  }

  /* ---- Return values ---- */

  /** A run that does not return leaves the context's return value alone; one that does replaces it. */
  function WithRetVal(r: Run, v: Word): Run {
    match r
    case Done(c) => if c.isReturning then r else Done(c.(retVal := v))
    case _ => r
  }

  lemma {:induction false} InterpStmtRetVal(w: World, t: Table, s: Stmt, c: Ctx, v: Word)
    requires !c.isReturning
    ensures InterpStmt(w, t, s, c.(retVal := v)) == WithRetVal(InterpStmt(w, t, s, c), v)
    decreases c.gas, s, 1
  {
    match s
    case If(cond, body) =>
      var q := EvalExpr(w, t, cond, c.st);
      if q.Val? {
        InterpBodyRetVal(w, t, body, c.(st := q.st), v);
      }
    case While(cond, body) => InterpLoopRetVal(w, t, cond, body, c, v);
    case _ =>
  }

  lemma {:induction false} InterpBodyRetVal(w: World, t: Table, ss: seq<Stmt>, c: Ctx, v: Word)
    requires !c.isReturning
    ensures InterpBody(w, t, ss, c.(retVal := v)) == WithRetVal(InterpBody(w, t, ss, c), v)
    decreases c.gas, ss, 0
  {
    if ss != [] {
      InterpStmtRetVal(w, t, ss[0], c, v);
      var r := InterpStmt(w, t, ss[0], c);
      if r.Done? && !r.c.isReturning {
        InterpBodyRetVal(w, t, ss[1..], r.c, v);
      }
    }
  }

  lemma {:induction false} InterpLoopRetVal(w: World, t: Table, cond: Expr, body: seq<Stmt>, c: Ctx, v: Word)
    requires !c.isReturning
    ensures InterpLoop(w, t, cond, body, c.(retVal := v)) == WithRetVal(InterpLoop(w, t, cond, body, c), v)
    decreases c.gas, body, 1
  {
    var q := EvalExpr(w, t, cond, c.st);
    if q.Val? && Truthy(q.v) && c.gas > 0 {
      var c0 := c.(st := q.st, gas := c.gas - 1);
      InterpBodyRetVal(w, t, body, c0, v);
      var r := InterpBody(w, t, body, c0);
      if r.Done? && !r.c.isReturning {
        InterpLoopRetVal(w, t, cond, body, r.c, v);
      }
    }
  }

  /* ---- Main theorems ---- */

  /** The rest of the function from call `id` on, with the names as the compiler resolved them. */
  function RestOf(w: World, a: Activation, id: nat, c: Ctx): Result {
    FromRun(RestBody(w, CompiledSymbols(a), a.decl.body, id, c))
  }

  /** The context of a side exit. */
  function ExitOf(o: Outcome, retVal: Word): Ctx
    requires o.Missed?
  {
    Ctx(o.st, retVal, false, false, o.gas)
  }

  /** Interpreting the activation is the guarded run and then the rest from the missed call on. */
  lemma InterpretationIsRest(
    w: World, a: Activation, guards: Guards, sel: Word, args: seq<Word>, st: State, gas: nat, retVal: Word)
    requires |args| == |a.decl.params| && ProperlyBound(a) && CommonNames(a)
    requires var o := GuardedRun(w, a, guards, sel, args, st, gas); o.Missed? && ResumableBody(a.decl.body, o.id)
    ensures var o := GuardedRun(w, a, guards, sel, args, st, gas);
            InterpretFunction(w, a, sel, args, st, gas, retVal) == RestOf(w, a, o.id, ExitOf(o, retVal))
  {
    var s := CompiledSymbols(a);
    var c := Ctx(EntryState(a, sel, args, st), retVal, false, false, gas);
    ExecBodyAgrees(w, s, guards, a.decl.body, c);
    InterpretedAsCompiled(a);
    InterpBodySame(w, InterpretedTable(a), s, a.decl.body, c);
  }

  /** The objects that the search creates on its way from an exit to the missed call; none if that fails. */
  function Litter(w: World, a: Activation, o: Outcome): Option<State>
    requires o.Missed?
  {
    Walk(w, NewsBefore(a.decl.body, o.id), o.st)
  }

  /** The side exit carries out the same rest, in a state with the objects that the search created on its way. */
  lemma SideExitIsRest(w: World, a: Activation, guards: Guards, o: Outcome, retVal: Word)
    requires o.Missed? && Resumes(w, a, guards, o)
    ensures Finish(w, a, Records(CodeOf(a, guards)), FinalOf(a, o), retVal)
            == if Litter(w, a, o).None? then Crash
               else RestOf(w, a, o.id, ExitOf(o, retVal).(st := Litter(w, a, o).value))
    ensures Litter(w, a, o).Some? ==>
              && Litter(w, a, o).value == o.st.(heap := Litter(w, a, o).value.heap)
              && HeapGrows(o.st.heap, Litter(w, a, o).value.heap)
              && (Litter(w, a, o).value == o.st <==> NewsBefore(a.decl.body, o.id) == [])
  {
    var s := CompiledSymbols(a);
    var body := a.decl.body;
    if !a.isMethod {
      ClosureIsStored(a);
    }
    RebuiltAsCompiled(w, a, o.st);
    SkipBodySame(w, Rebuild(w, a.decl, o.st, PatchpointFrame(a.decl, s)), s, body, o.id, ExitOf(o, retVal));
    SearchResumesBody(w, s, body, o.id, ExitOf(o, retVal));
    WalkCreates(w, NewsBefore(body, o.id), o.st);
  }

  /** Finishing a missed run whose search passes no `new` is interpreting the activation from the start. */
  lemma FinishedRunIsInterpretation(
    w: World, a: Activation, guards: Guards, sel: Word, args: seq<Word>, st: State, gas: nat, retVal: Word)
    requires |args| == |a.decl.params| && ProperlyBound(a) && CommonNames(a)
    requires var o := GuardedRun(w, a, guards, sel, args, st, gas);
             o.Missed? && Resumes(w, a, guards, o) && NewsBefore(a.decl.body, o.id) == []
    ensures Finish(w, a, Records(CodeOf(a, guards)), FinalOf(a, GuardedRun(w, a, guards, sel, args, st, gas)), retVal)
            == InterpretFunction(w, a, sel, args, st, gas, retVal)
  {
    InterpretationIsRest(w, a, guards, sel, args, st, gas, retVal);
    SideExitIsRest(w, a, guards, GuardedRun(w, a, guards, sel, args, st, gas), retVal);
  }

  /** The search passes no `new` on its way to the missed call, or there was no miss. */
  predicate Unlittered(a: Activation, o: Outcome) {
    o.Missed? ==> NewsBefore(a.decl.body, o.id) == []
  }

  /**
   Deoptimisation is transparent. The compiled function reaches one final
   configuration, `f`. After a miss, the side exit goes on exactly as interpretation
   from the start does from that call on, in a state that has in addition only one
   object for each `new` on the way of the search. If there is none, or no miss, the
   whole has the value, the state and the gas of interpreting the activation.
   */
  lemma DeoptimisationIsTransparent(
    w: World, a: Activation, guards: Guards, sel: Word, args: seq<Word>, st: State, gas: nat)
    returns (f: Config)
    requires |args| == |a.decl.params| && ProperlyBound(a) && CommonNames(a) && Compiles(a, guards)
    requires Resumes(w, a, guards, GuardedRun(w, a, guards, sel, args, st, gas))
    ensures Reaches(w, CodeOf(a, guards), Start(a, sel, args, st, gas), f) && Final(f)
    ensures forall g | Reaches(w, CodeOf(a, guards), Start(a, sel, args, st, gas), g) && Final(g) :: g == f
    ensures var o := GuardedRun(w, a, guards, sel, args, st, gas);
            o.Missed? ==>
              && Finish(w, a, Records(CodeOf(a, guards)), f, 0)
                 == (if Litter(w, a, o).None? then Crash
                     else RestOf(w, a, o.id, ExitOf(o, 0).(st := Litter(w, a, o).value)))
              && InterpretFunction(w, a, sel, args, st, gas, 0) == RestOf(w, a, o.id, ExitOf(o, 0))
    ensures Unlittered(a, GuardedRun(w, a, guards, sel, args, st, gas)) ==>
              Finish(w, a, Records(CodeOf(a, guards)), f, 0) == InterpretFunction(w, a, sel, args, st, gas, 0)
  {
    var o := GuardedRun(w, a, guards, sel, args, st, gas);
    f := FinalOf(a, o);
    GuardedFunctionRuns(w, a, guards, sel, args, st, gas);
    FinalIsTheOnly(w, CodeOf(a, guards), Start(a, sel, args, st, gas), f);
    if o.Missed? {
      InterpretationIsRest(w, a, guards, sel, args, st, gas, 0);
      SideExitIsRest(w, a, guards, o, 0);
    } else {
      UninterruptedRun(w, a, guards, sel, args, st, gas);
    }
  }

  lemma FinalIsTheOnly(w: World, code: seq<Block>, start: Config, f: Config)
    requires Reaches(w, code, start, f) && Final(f)
    ensures forall g | Reaches(w, code, start, g) && Final(g) :: g == f
  {
    forall g | Reaches(w, code, start, g) && Final(g) ensures g == f {
      FinalIsUnique(w, code, start, f, g);
    }
  }

  lemma UninterruptedRun(
    w: World, a: Activation, guards: Guards, sel: Word, args: seq<Word>, st: State, gas: nat)
    requires |args| == |a.decl.params| && ProperlyBound(a) && CommonNames(a)
    requires var o := GuardedRun(w, a, guards, sel, args, st, gas); !o.Parted? && !o.Missed?
    ensures Finish(w, a, Records(CodeOf(a, guards)), FinalOf(a, GuardedRun(w, a, guards, sel, args, st, gas)), 0)
            == InterpretFunction(w, a, sel, args, st, gas, 0)
  {
    var c := Ctx(EntryState(a, sel, args, st), 0, false, false, gas);
    ExecBodyAgrees(w, CompiledSymbols(a), guards, a.decl.body, c);
    InterpretedAsCompiled(a);
    InterpBodySame(w, InterpretedTable(a), CompiledSymbols(a), a.decl.body, c);
  }

  /** Whether interpreting the activation ends in a `return` statement. */
  predicate ReturnsExplicitly(w: World, a: Activation, sel: Word, args: seq<Word>, st: State, gas: nat)
    requires |args| == |a.decl.params|
  {
    var r := InterpBody(w, InterpretedTable(a), a.decl.body, Ctx(EntryState(a, sel, args, st), 0, false, false, gas));
    r.Done? ==> r.c.isReturning
  }

  /**
   The context's return value is not cleared on a side exit: with `retVal` left
   there by an earlier exit, the result is right exactly when `retVal` is null or
   the rest of the body returns.
   */
  lemma StaleReturnValue(
    w: World, a: Activation, guards: Guards, sel: Word, args: seq<Word>, st: State, gas: nat, retVal: Word)
    requires |args| == |a.decl.params| && ProperlyBound(a) && CommonNames(a)
    requires var o := GuardedRun(w, a, guards, sel, args, st, gas);
             o.Missed? && Resumes(w, a, guards, o) && Unlittered(a, o)
    ensures Finish(w, a, Records(CodeOf(a, guards)), FinalOf(a, GuardedRun(w, a, guards, sel, args, st, gas)), retVal)
            == InterpretFunction(w, a, sel, args, st, gas, 0)
            <==> retVal == 0 || ReturnsExplicitly(w, a, sel, args, st, gas)
  {
    FinishedRunIsInterpretation(w, a, guards, sel, args, st, gas, retVal);
    var c := Ctx(EntryState(a, sel, args, st), 0, false, false, gas);
    InterpBodyRetVal(w, InterpretedTable(a), a.decl.body, c, retVal);
    InterpBodyRetVal(w, InterpretedTable(a), a.decl.body, c, 0);
  }
}
