/**
 How many patchpoints, and so stack-map records, a compiled function has: a side
 exit is resumed only in a function with exactly one.
 */
module Patchpoints {
  import opened Tagged
  import opened Ast
  import opened Runtime
  import opened Interpreter
  import opened Guarded
  import opened Frames
  import opened Ir
  import opened CodeGen
  import opened Deopt

  /* ---- Guarded calls of the tree ---- */

  /** Method calls in an expression, those inside closure literals left out: they are compiled with the closure. */
  function CallsInExpr(e: Expr): nat
    decreases e, 0
  {
    match e
    case Binary(_, l, r) => CallsInExpr(l) + CallsInExpr(r)
    case MethodCall(_, callee, _, args) => CallsInExpr(callee) + CallsInArgs(args) + 1
    case ClosureCall(callee, args) => CallsInExpr(callee) + CallsInArgs(args)
    case _ => 0
  }

  function CallsInArgs(args: seq<Expr>): nat
    decreases args, 0
  {
    if args == [] then 0 else CallsInExpr(args[0]) + CallsInArgs(args[1..])
  }

  function CallsInStmt(s: Stmt): nat
    decreases s, 1
  {
    match s
    case Decl(_, None) => 0
    case Decl(_, Some(e)) => CallsInExpr(e)
    case Assign(_, e) => CallsInExpr(e)
    case Return(e) => CallsInExpr(e)
    case Evaluate(e) => CallsInExpr(e)
    case If(cond, body) => CallsInExpr(cond) + CallsInBody(body)
    case While(cond, body) => CallsInExpr(cond) + CallsInBody(body)
  }

  /** Statements after a `return` are not compiled. */
  function CallsInBody(ss: seq<Stmt>): nat
    decreases ss, 0
  {
    if ss == [] then 0 else CallsInStmt(ss[0]) + if ss[0].Return? then 0 else CallsInBody(ss[1..])
  }

  /* ---- Patchpoints of the code ---- */

  lemma {:induction false} PatchpointsAppend(bl: Block, i: Instr)
    ensures PatchpointsIn(bl + [i]) == PatchpointsIn(bl) + if i.Patchpoint? then 1 else 0
  {
    if bl == [] {
      assert bl + [i] == [i] && [i][1..] == [];
    } else {
      assert (bl + [i])[1..] == bl[1..] + [i];
      PatchpointsAppend(bl[1..], i);
    }
  }

  lemma {:induction false} NoPatchpoints(bl: Block)
    requires forall k | 0 <= k < |bl| :: !bl[k].Patchpoint?
    ensures PatchpointsIn(bl) == 0
  {
    if bl != [] {
      NoPatchpoints(bl[1..]);
    }
  }

  lemma {:induction false} RecordsAppend(code: seq<Block>, i: Instr, k: nat)
    requires k < |code|
    ensures Records(code[k := code[k] + [i]]) == Records(code) + if i.Patchpoint? then 1 else 0
  {
    var code' := code[k := code[k] + [i]];
    if k == 0 {
      assert code'[1..] == code[1..];
      PatchpointsAppend(code[0], i);
    } else {
      assert code'[1..] == code[1..][k - 1 := code[1..][k - 1] + [i]];
      RecordsAppend(code[1..], i, k - 1);
    }
  }

  lemma {:induction false} NewBlock(code: seq<Block>)
    ensures Records(code + [[]]) == Records(code)
  {
    if code == [] {
      assert code + [[]] == [[]] && Records([[]][1..]) == 0;
    } else {
      assert (code + [[]])[1..] == code[1..] + [[]];
      NewBlock(code[1..]);
    }
  }

  lemma EmitRecords(b: Fn, i: Instr)
    ensures Records(Emit(b, i).blocks) == Records(b.blocks) + if Inserting(b) && i.Patchpoint? then 1 else 0
  {
    if Inserting(b) {
      RecordsAppend(b.blocks, i, b.cur.value);
    }
  }

  /** Instructions other than a patchpoint add none. */
  lemma EmitAddsNone(b: Fn, i: Instr)
    requires !i.Patchpoint?
    ensures Records(Emit(b, i).blocks) == Records(b.blocks)
    ensures Records(Define(b, i).blocks) == Records(b.blocks)
  {
    EmitRecords(b, i);
    EmitRecords(b.(next := b.next + 1), i);
  }

  lemma AddBlockAddsNone(b: Fn)
    ensures Records(AddBlock(b).blocks) == Records(b.blocks)
  {
    NewBlock(b.blocks);
  }

  /* ---- Expressions ---- */

  lemma OpAddsNone(op: BinOp, l: Operand, r: Operand, b: Fn)
    requires Inserting(b)
    ensures Records(GenOp(op, l, r, b).1.blocks) == Records(b.blocks)
  {
    match op
    case Comparison(c) =>
      var b1 := Define(b, ICmp(b.next, c, l, r));
      EmitAddsNone(b, ICmp(b.next, c, l, r));
      EmitAddsNone(b1, BoxInt(b1.next, Reg(b.next)));
    case Arithmetic(a) => EmitAddsNone(b, CallHelper(b.next, a, l, r));
  }

  lemma NullTestAddsNone(obj: Operand, b: Fn)
    requires Inserting(b)
    ensures Records(GenNullTest(obj, b).blocks) == Records(b.blocks)
  {
    var b0 := AddBlock(AddBlock(b));
    var b1 := Define(b0, IsNotNull(b.next, obj));
    AddBlockAddsNone(b);
    AddBlockAddsNone(AddBlock(b));
    EmitAddsNone(b0, IsNotNull(b.next, obj));
    AddBlockAddsNone(b1);
    EmitAddsNone(AddBlock(b1), CondBr(Reg(b.next), |b.blocks| + 2, |b.blocks| + 1, false));
  }

  lemma ClassTestAddsNone(assumed: Word, obj: Operand, hit: nat, b: Fn)
    requires Inserting(b)
    ensures Records(GenClassTest(assumed, obj, hit, b).blocks) == Records(b.blocks)
  {
    if assumed == SMALL_INT_CLASS {
      EmitAddsNone(b, AndTag(b.next, obj));
      EmitAddsNone(Define(b, AndTag(b.next, obj)), CondBr(Reg(b.next), hit, hit + 1, false));
    } else {
      var b1 := Define(b, LoadClass(b.next, obj));
      EmitAddsNone(b, LoadClass(b.next, obj));
      EmitAddsNone(b1, IsClass(b1.next, Reg(b.next), assumed));
      EmitAddsNone(Define(b1, IsClass(b1.next, Reg(b.next), assumed)), CondBr(Reg(b1.next), hit, hit + 1, false));
    }
  }

  lemma HitAddsNone(cached: nat, site: nat, sel: string, obj: Operand, args: seq<Operand>, b: Fn)
    requires Inserting(b)
    ensures Records(GenHit(cached, site, sel, obj, args, b).1.blocks) == Records(b.blocks)
  {
    var b1 := Emit(b, ResetCounter(site));
    EmitAddsNone(b, ResetCounter(site));
    EmitAddsNone(b1, CallSlot(b1.next, cached, obj, sel, args));
    EmitAddsNone(Define(b1, CallSlot(b1.next, cached, obj, sel, args)), SetCurrent);
  }

  lemma MissAddsOne(u: Unit, site: nat, b: Fn)
    requires Inserting(b)
    ensures Records(GenMiss(u, site, b).blocks) == Records(b.blocks) + 1
  {
    EmitRecords(b.(next := b.next + 1), Patchpoint(b.next, site, u.frame));
    EmitAddsNone(Define(b, Patchpoint(b.next, site, u.frame)), Instr.Ret(Reg(b.next)));
  }

  lemma GuardAddsOne(u: Unit, site: nat, sel: string, obj: Operand, args: seq<Operand>, b: Fn)
    requires Inserting(b)
    ensures Records(GenGuarded(u, site, sel, obj, args, b).1.blocks) == Records(b.blocks) + 1
  {
    var hit, tested := |b.blocks|, GenNullTest(obj, b);
    NullTestAddsNone(obj, b);
    DecisionAddsOne(u, site, sel, obj, args, hit, SetInsert(tested, hit + 2));
    assert GenGuarded(u, site, sel, obj, args, b)
        == GenDecided(u, site, sel, obj, args, hit, SetInsert(tested, hit + 2));
  }

  lemma DecisionAddsOne(u: Unit, site: nat, sel: string, obj: Operand, args: seq<Operand>, hit: nat, b: Fn)
    requires Inserting(b) && hit + 2 < |b.blocks|
    ensures Records(GenDecided(u, site, sel, obj, args, hit, b).1.blocks) == Records(b.blocks) + 1
  {
    var g := GuardOf(u.guards, site);
    var missing := SetInsert(GenClassTest(g.assumed, obj, hit, b), hit + 1);
    ClassTestAddsNone(g.assumed, obj, hit, b);
    MissAddsOne(u, site, missing);
    HitAddsNone(g.cached, site, sel, obj, args, SetInsert(GenMiss(u, site, missing), hit));
  }

  lemma {:induction false} ExprPatchpoints(u: Unit, e: Expr, b: Fn)
    requires Inserting(b)
    ensures Records(GenExpr(u, e, b).1.blocks) == Records(b.blocks) + CallsInExpr(e)
    decreases e, 0
  {
    match e
    case Number(_) =>
    case VarRef(x) => EmitAddsNone(b, LoadVar(b.next, Resolve(u.symbols, x)));
    case Binary(op, l, r) =>
      var (lo, b1) := GenExpr(u, l, b);
      var (ro, b2) := GenExpr(u, r, b1);
      ExprPatchpoints(u, l, b);
      ExprPatchpoints(u, r, b1);
      OpAddsNone(op, lo, ro, b2);
    case MethodCall(site, callee, sel, args) =>
      var (obj, b1) := GenExpr(u, callee, b);
      var (os, b2) := GenArgs(u, args, b1);
      ExprPatchpoints(u, callee, b);
      ArgsPatchpoints(u, args, b1);
      GuardAddsOne(u, site, sel, obj, os, b2);
    case ClosureCall(callee, args) =>
      var (f, b1) := GenExpr(u, callee, b);
      var (os, b2) := GenArgs(u, args, b1);
      ExprPatchpoints(u, callee, b);
      ArgsPatchpoints(u, args, b1);
      EmitAddsNone(b2, CallClosurePtr(b2.next, f, os));
      EmitAddsNone(Define(b2, CallClosurePtr(b2.next, f, os)), SetCurrent);
    case NewObject(cls) => EmitAddsNone(b, New(b.next, cls));
    case ClosureLiteral(c) =>
      var captured := AddressesOf(u.symbols, c.boundVars);
      EmitAddsNone(b, MakeClosure(b.next, c, captured));
      EmitAddsNone(Define(b, MakeClosure(b.next, c, captured)), StoreVar(StoreAddr(u, c.name), Reg(b.next)));
  }

  lemma {:induction false} ArgsPatchpoints(u: Unit, args: seq<Expr>, b: Fn)
    requires Inserting(b)
    ensures Records(GenArgs(u, args, b).1.blocks) == Records(b.blocks) + CallsInArgs(args)
    decreases args, 0
  {
    if args != [] {
      ExprPatchpoints(u, args[0], b);
      ArgsPatchpoints(u, args[1..], GenExpr(u, args[0], b).1);
    }
  }

  /* ---- Statements ---- */

  lemma {:induction false} BodyPatchpoints(u: Unit, ss: seq<Stmt>, b: Fn)
    requires Inserting(b)
    ensures Records(GenBody(u, ss, b).blocks) == Records(b.blocks) + CallsInBody(ss)
    decreases ss, 0
  {
    if ss != [] {
      StmtPatchpoints(u, ss[0], b);
      if !ss[0].Return? {
        BodyPatchpoints(u, ss[1..], GenStmt(u, ss[0], b));
      }
    }
  }

  /** Generation goes on after every statement but `return`. */
  lemma {:induction false} StmtPatchpoints(u: Unit, s: Stmt, b: Fn)
    requires Inserting(b)
    ensures Records(GenStmt(u, s, b).blocks) == Records(b.blocks) + CallsInStmt(s)
    ensures if s.Return? then GenStmt(u, s, b).cur.None? else Inserting(GenStmt(u, s, b))
    decreases s, 3
  {
    match s
    case Decl(_, None) =>
    case Decl(x, Some(e)) => AssignPatchpoints(u, x, e, b);
    case Assign(x, e) => AssignPatchpoints(u, x, e, b);
    case Return(e) =>
      ExprPatchpoints(u, e, b);
      EmitAddsNone(GenExpr(u, e, b).1, Instr.Ret(GenExpr(u, e, b).0));
    case Evaluate(e) => ExprPatchpoints(u, e, b);
    case If(cond, body) => IfPatchpoints(u, cond, body, b);
    case While(cond, body) => WhilePatchpoints(u, cond, body, b);
  }

  lemma AssignPatchpoints(u: Unit, x: string, e: Expr, b: Fn)
    requires Inserting(b)
    ensures Records(GenAssign(u, x, e, b).blocks) == Records(b.blocks) + CallsInExpr(e)
  {
    ExprPatchpoints(u, e, b);
    EmitAddsNone(GenExpr(u, e, b).1, StoreVar(StoreAddr(u, x), GenExpr(u, e, b).0));
  }

  lemma BranchAddsNone(o: Operand, taken: nat, skipped: nat, loop: bool, b: Fn)
    requires Inserting(b)
    ensures Records(GenBranch(o, taken, skipped, loop, b).blocks) == Records(b.blocks)
  {
    var b1 := Define(b, LShr(b.next, o));
    EmitAddsNone(b, LShr(b.next, o));
    EmitAddsNone(b1, IsNotNull(b1.next, Reg(b.next)));
    EmitAddsNone(Define(b1, IsNotNull(b1.next, Reg(b.next))), CondBr(Reg(b1.next), taken, skipped, loop));
  }

  lemma {:induction false} IfPatchpoints(u: Unit, cond: Expr, body: seq<Stmt>, b: Fn)
    requires Inserting(b)
    ensures Records(GenIf(u, cond, body, b).blocks) == Records(b.blocks) + CallsInExpr(cond) + CallsInBody(body)
    decreases body, 2
  {
    ExprPatchpoints(u, cond, b);
    IfRestPatchpoints(u, GenExpr(u, cond, b).0, body, GenExpr(u, cond, b).1);
  }

  lemma {:induction false} IfRestPatchpoints(u: Unit, o: Operand, body: seq<Stmt>, b: Fn)
    requires Inserting(b)
    ensures Records(GenIfRest(u, o, body, b).blocks) == Records(b.blocks) + CallsInBody(body)
    decreases body, 1
  {
    var cont := |b.blocks|;
    var b1 := GenBranch(o, cont + 1, cont, false, AddBlock(AddBlock(b)));
    AddBlockAddsNone(b);
    AddBlockAddsNone(AddBlock(b));
    BranchAddsNone(o, cont + 1, cont, false, AddBlock(AddBlock(b)));
    BodyPatchpoints(u, body, SetInsert(b1, cont + 1));
    EmitAddsNone(GenBody(u, body, SetInsert(b1, cont + 1)), Br(cont));
  }

  lemma {:induction false} WhilePatchpoints(u: Unit, cond: Expr, body: seq<Stmt>, b: Fn)
    requires Inserting(b)
    ensures Records(GenWhile(u, cond, body, b).blocks) == Records(b.blocks) + CallsInExpr(cond) + CallsInBody(body)
    decreases body, 3
  {
    LoopEntryAddsNone(b);
    LoopPatchpoints(u, cond, body, |b.blocks|, GenLoopEntry(b));
  }

  lemma {:induction false} LoopPatchpoints(u: Unit, cond: Expr, body: seq<Stmt>, head: nat, b: Fn)
    requires Inserting(b) && head + 3 <= |b.blocks|
    ensures Records(GenLoop(u, cond, body, head, b).blocks)
            == Records(b.blocks) + CallsInExpr(cond) + CallsInBody(body)
    decreases body, 2
  {
    var (o, b1) := GenExpr(u, cond, b);
    ExprPatchpoints(u, cond, b);
    BranchAddsNone(o, head + 2, head + 1, true, b1);
    LoopBodyPatchpoints(u, body, head, GenBranch(o, head + 2, head + 1, true, b1));
  }

  lemma {:induction false} LoopBodyPatchpoints(u: Unit, body: seq<Stmt>, head: nat, b: Fn)
    requires head + 3 <= |b.blocks|
    ensures Records(Emit(GenBody(u, body, SetInsert(b, head + 2)), Br(head)).blocks)
            == Records(b.blocks) + CallsInBody(body)
    decreases body, 1
  {
    BodyPatchpoints(u, body, SetInsert(b, head + 2));
    EmitAddsNone(GenBody(u, body, SetInsert(b, head + 2)), Br(head));
  }

  lemma LoopEntryAddsNone(b: Fn)
    requires Inserting(b)
    ensures Records(GenLoopEntry(b).blocks) == Records(b.blocks)
  {
    AddBlockAddsNone(b);
    AddBlockAddsNone(AddBlock(b));
    AddBlockAddsNone(AddBlock(AddBlock(b)));
    EmitAddsNone(AddBlock(AddBlock(AddBlock(b))), Br(|b.blocks|));
  }

  /* ---- Whole functions ---- */

  lemma EntryHasNone(a: Activation)
    ensures Records([EntryBlock(a)]) == 0
  {
    NoPatchpoints(EntryBlock(a));
    assert [EntryBlock(a)][1..] == [];
  }

  /** The stack map of a function has one record for each method call of its body that is not behind a `return`. */
  lemma RecordsAreCalls(a: Activation, guards: Guards)
    ensures Records(CodeOf(a, guards)) == CallsInBody(a.decl.body)
  {
    var u := UnitOf(a, guards);
    EntryHasNone(a);
    BodyPatchpoints(u, a.decl.body, EntryFn(a));
    EmitAddsNone(GenBody(u, a.decl.body, EntryFn(a)), Instr.Ret(Imm(0)));
  }

  /** So an exit searches the body exactly when the missed call is the only one; otherwise it answers null at once. */
  lemma OnlyCallIsSearched(w: World, a: Activation, guards: Guards, o: Outcome, retVal: Word)
    requires o.Missed? && Stored(a.decl, CompiledSymbols(a))
    ensures var exit := Finish(w, a, Records(CodeOf(a, guards)), FinalOf(a, o), retVal);
            if CallsInBody(a.decl.body) != 1 then exit == Result(0, o.st, o.gas)
            else exit == FromRun(SkipBody(w, Rebuild(w, a.decl, o.st, FrameOf(a)), a.decl.body, o.id,
                                          ExitOf(o, retVal)))
  {
    RecordsAreCalls(a, guards);
  }
}
