/** Running the code generated for statements gives the outcome of the compiled run. */
module StmtCode {
  import opened Tagged
  import opened Ast
  import opened Runtime
  import opened Guarded
  import opened CompiledRun
  import opened Ir
  import opened CodeGen
  import opened Blocks
  import opened ExprCode

  ghost predicate SimulatesStmt(
    w: World, code: seq<Block>, u: Unit, start: Config, b': Fn, o: Outcome, regs': Regs)
  {
    match o
    case Normal(st, gas) => Inserting(b') && Reaches(w, code, start, Here(b', regs', st, gas))
    case Returned(v, st, gas) => Reaches(w, code, start, Halted(v, st, gas))
    case Missed(id, st, gas) => Reaches(w, code, start, Exited(id, u.frame, st, gas))
    case Faulted => Reaches(w, code, start, Trap)
    case Exhausted => Reaches(w, code, start, GasOut)
    case Parted => Reaches(w, code, start, Wild)
  }

  /** The truth test of a condition sends control to the block that the interpreter's test would choose. */
  lemma SimulateBranch(
    w: World, code: seq<Block>, start: Config, o: Operand, taken: nat, skipped: nat, loop: bool, b: Fn,
    regs: Regs, st: State, gas: nat) returns (regs': Regs)
    requires Inserting(b) && Covers(code, GenBranch(o, taken, skipped, loop, b))
    requires Reaches(w, code, start, Here(b, regs, st, gas))
    ensures Reaches(w, code, start,
                    if Lshr3(ValueOf(regs, o)) == 0 then StartOf(skipped, regs', st, gas)
                    else if !loop then StartOf(taken, regs', st, gas)
                    else if gas == 0 then GasOut
                    else StartOf(taken, regs', st, gas - 1))
  {
    var v := Lshr3(ValueOf(regs, o));
    var nz: Word := if v != 0 then 1 else 0;
    var i := LShr(b.next, o);
    var b1 := Define(b, i);
    var i1 := IsNotNull(b1.next, Reg(b.next));
    var b2 := Define(b1, i1);
    var branch := CondBr(Reg(b1.next), taken, skipped, loop);
    assert GenBranch(o, taken, skipped, loop, b) == Emit(b2, branch);
    regs' := regs[b.next := v][b1.next := nz];
    RunTest(w, code, start, b, i, i1, branch, regs, st, gas, v, nz);
  }

  /** Storing the value of an expression that has been simulated. */
  lemma ThenStore(
    w: World, code: seq<Block>, u: Unit, start: Config, x: string, n: nat, regs: Regs, gas: nat,
    g: (Operand, Fn), q: ExprOutcome, regs': Regs)
    requires Inserting(g.1) && Covers(code, Emit(g.1, StoreVar(StoreAddr(u, x), g.0)))
    requires Simulates(w, code, u, start, n, regs, gas, g, q, regs')
    ensures SimulatesStmt(w, code, u, start, Emit(g.1, StoreVar(StoreAddr(u, x), g.0)),
                          ExecAssign(u.symbols, x, q, gas), regs')
  {
    if q.Value? {
      RunEmitted(w, code, start, g.1, StoreVar(StoreAddr(u, x), g.0), regs', q.st, gas);
    }
  }

  lemma SimulateAssign(
    w: World, code: seq<Block>, u: Unit, start: Config, x: string, e: Expr, b: Fn,
    regs: Regs, st: State, gas: nat) returns (regs': Regs)
    requires Inserting(b) && Covers(code, GenAssign(u, x, e, b))
    requires Reaches(w, code, start, Here(b, regs, st, gas))
    ensures SimulatesStmt(w, code, u, start, GenAssign(u, x, e, b),
                          ExecAssign(u.symbols, x, JitExpr(w, u.symbols, u.guards, e, st), gas), regs')
  {
    var g := GenExpr(u, e, b);
    CoversEarlier(code, g.1, Emit(g.1, StoreVar(StoreAddr(u, x), g.0)));
    regs' := SimulateExpr(w, code, u, start, e, b, regs, st, gas);
    ThenStore(w, code, u, start, x, b.next, regs, gas, g, JitExpr(w, u.symbols, u.guards, e, st), regs');
  }

  function ReturnOf(q: ExprOutcome, gas: nat): Outcome {
    match q
    case Value(v, st) => Returned(v, st, gas)
    case o => Stopped(o, gas)
  }

  function ContinueWith(q: ExprOutcome, gas: nat): Outcome {
    match q
    case Value(_, st) => Normal(st, gas)
    case o => Stopped(o, gas)
  }

  lemma ThenReturn(
    w: World, code: seq<Block>, u: Unit, start: Config, n: nat, regs: Regs, gas: nat,
    g: (Operand, Fn), q: ExprOutcome, regs': Regs)
    requires Inserting(g.1) && Covers(code, Emit(g.1, Instr.Ret(g.0)))
    requires Simulates(w, code, u, start, n, regs, gas, g, q, regs')
    ensures SimulatesStmt(w, code, u, start, ClearInsert(Emit(g.1, Instr.Ret(g.0))), ReturnOf(q, gas), regs')
  {
    if q.Value? {
      RunEmitted(w, code, start, g.1, Instr.Ret(g.0), regs', q.st, gas);
    }
  }

  lemma SimulateReturn(
    w: World, code: seq<Block>, u: Unit, start: Config, e: Expr, b: Fn, regs: Regs, st: State, gas: nat)
    returns (regs': Regs)
    requires Inserting(b)
    requires var g := GenExpr(u, e, b); Covers(code, Emit(g.1, Instr.Ret(g.0)))
    requires Reaches(w, code, start, Here(b, regs, st, gas))
    ensures var g := GenExpr(u, e, b);
            SimulatesStmt(w, code, u, start, ClearInsert(Emit(g.1, Instr.Ret(g.0))),
                          ReturnOf(JitExpr(w, u.symbols, u.guards, e, st), gas), regs')
  {
    var g := GenExpr(u, e, b);
    CoversEarlier(code, g.1, Emit(g.1, Instr.Ret(g.0)));
    regs' := SimulateExpr(w, code, u, start, e, b, regs, st, gas);
    ThenReturn(w, code, u, start, b.next, regs, gas, g, JitExpr(w, u.symbols, u.guards, e, st), regs');
  }

  lemma SimulateEvaluate(
    w: World, code: seq<Block>, u: Unit, start: Config, e: Expr, b: Fn, regs: Regs, st: State, gas: nat)
    returns (regs': Regs)
    requires Inserting(b) && Covers(code, GenExpr(u, e, b).1)
    requires Reaches(w, code, start, Here(b, regs, st, gas))
    ensures SimulatesStmt(w, code, u, start, GenExpr(u, e, b).1,
                          ContinueWith(JitExpr(w, u.symbols, u.guards, e, st), gas), regs')
  {
    regs' := SimulateExpr(w, code, u, start, e, b, regs, st, gas);
  }

  lemma {:induction false} SimulateBody(
    w: World, code: seq<Block>, u: Unit, start: Config, ss: seq<Stmt>, b: Fn, regs: Regs, st: State, gas: nat)
    returns (regs': Regs)
    requires Ready(b) && Covers(code, GenBody(u, ss, b))
    requires Reaches(w, code, start, Here(b, regs, st, gas))
    ensures SimulatesStmt(w, code, u, start, GenBody(u, ss, b),
                          JitBody(w, u.symbols, u.guards, ss, st, gas), regs')
    decreases ss, 0, 0
  {
    regs' := regs;
    if ss != [] {
      var b1 := GenStmt(u, ss[0], b);
      CoversEarlier(code, b1, GenBody(u, ss[1..], b1));
      GenStmtGrows(u, ss[0], b);
      regs' := SimulateStatement(w, code, u, start, ss[0], b, regs, st, gas);
      var o := JitStmt(w, u.symbols, u.guards, ss[0], st, gas);
      if o.Normal? {
        var regs1 := regs';
        regs' := SimulateBody(w, code, u, start, ss[1..], b1, regs1, o.st, o.gas);
      }
    }
  }

  lemma {:induction false} SimulateStatement(
    w: World, code: seq<Block>, u: Unit, start: Config, s: Stmt, b: Fn, regs: Regs, st: State, gas: nat)
    returns (regs': Regs)
    requires Ready(b) && Covers(code, GenStmt(u, s, b))
    requires Reaches(w, code, start, Here(b, regs, st, gas))
    ensures SimulatesStmt(w, code, u, start, GenStmt(u, s, b),
                          JitStmt(w, u.symbols, u.guards, s, st, gas), regs')
    decreases s, 1, 0
  {
    regs' := regs;
    match s {
      case Decl(_, None) =>
      case Decl(x, Some(e)) => regs' := SimulateAssign(w, code, u, start, x, e, b, regs, st, gas);
      case Assign(x, e) => regs' := SimulateAssign(w, code, u, start, x, e, b, regs, st, gas);
      case Return(e) => regs' := SimulateReturn(w, code, u, start, e, b, regs, st, gas);
      case Evaluate(e) => regs' := SimulateEvaluate(w, code, u, start, e, b, regs, st, gas);
      case If(cond, body) =>
        IfUnfolds(w, u, cond, body, st, gas);
        regs' := SimulateIf(w, code, u, start, cond, body, b, regs, st, gas);
      case While(cond, body) => regs' := SimulateWhile(w, code, u, start, cond, body, b, regs, st, gas);
    }
  }

  lemma {:induction false} SimulateWhile(
    w: World, code: seq<Block>, u: Unit, start: Config, cond: Expr, body: seq<Stmt>, b: Fn,
    regs: Regs, st: State, gas: nat) returns (regs': Regs)
    requires Ready(b) && Covers(code, GenWhile(u, cond, body, b))
    requires Reaches(w, code, start, Here(b, regs, st, gas))
    ensures SimulatesStmt(w, code, u, start, GenWhile(u, cond, body, b),
                          JitLoop(w, u.symbols, u.guards, cond, body, st, gas), regs')
    decreases body, 3, 0
  {
    var b1 := GenLoopEntry(b);
    CoversEarlier(code, b1, GenLoop(u, cond, body, |b.blocks|, b1));
    LoopEntryEnters(b);
    EnterLoop(w, code, start, b, regs, st, gas);
    regs' := SimulateLoop(
      w, code, u, start, cond, body, |b.blocks|, b1, GenLoop(u, cond, body, |b.blocks|, b1), regs, st, gas);
  }

  lemma EnterLoop(w: World, code: seq<Block>, start: Config, b: Fn, regs: Regs, st: State, gas: nat)
    requires Ready(b) && Covers(code, GenLoopEntry(b))
    requires Reaches(w, code, start, Here(b, regs, st, gas))
    ensures Reaches(w, code, start, StartOf(|b.blocks|, regs, st, gas))
    ensures GenLoopEntry(b).blocks[|b.blocks|] == []
  {
    var b0 := AddBlock(AddBlock(AddBlock(b)));
    RunEmitted(w, code, start, b0, Br(|b.blocks|), regs, st, gas);
  }

  /* ---- If ---- */

  lemma {:induction false} SimulateIf(
    w: World, code: seq<Block>, u: Unit, start: Config, cond: Expr, body: seq<Stmt>, b: Fn,
    regs: Regs, st: State, gas: nat) returns (regs': Regs)
    requires Ready(b) && Covers(code, GenIf(u, cond, body, b))
    requires Reaches(w, code, start, Here(b, regs, st, gas))
    ensures SimulatesStmt(w, code, u, start, GenIf(u, cond, body, b),
                          IfOutcome(w, u, JitExpr(w, u.symbols, u.guards, cond, st), body, gas), regs')
    decreases body, 3, 0
  {
    var g := GenExpr(u, cond, b);
    GenExprGrows(u, cond, b);
    CoversEarlier(code, g.1, GenIfRest(u, g.0, body, g.1));
    regs' := SimulateExpr(w, code, u, start, cond, b, regs, st, gas);
    regs' := ThenIf(w, code, u, start, body, b.next, regs, gas, g, JitExpr(w, u.symbols, u.guards, cond, st), regs');
  }

  lemma IfUnfolds(w: World, u: Unit, cond: Expr, body: seq<Stmt>, st: State, gas: nat)
    ensures JitStmt(w, u.symbols, u.guards, If(cond, body), st, gas)
         == IfOutcome(w, u, JitExpr(w, u.symbols, u.guards, cond, st), body, gas)
  {
  }

  function IfOutcome(w: World, u: Unit, q: ExprOutcome, body: seq<Stmt>, gas: nat): Outcome {
    match q
    case Value(v, st) =>
      if Lshr3(v) != 0 then JitBody(w, u.symbols, u.guards, body, st, gas) else Normal(st, gas)
    case o => Stopped(o, gas)
  }

  lemma {:induction false} ThenIf(
    w: World, code: seq<Block>, u: Unit, start: Config, body: seq<Stmt>, n: nat, regs: Regs, gas: nat,
    g: (Operand, Fn), q: ExprOutcome, regs1: Regs) returns (regs': Regs)
    requires Ready(g.1) && Covers(code, GenIfRest(u, g.0, body, g.1))
    requires Simulates(w, code, u, start, n, regs, gas, g, q, regs1)
    ensures SimulatesStmt(w, code, u, start, GenIfRest(u, g.0, body, g.1), IfOutcome(w, u, q, body, gas), regs')
    decreases body, 1, 2
  {
    regs' := regs1;
    if q.Value? {
      var cont := |g.1.blocks|;
      var inner := SetInsert(GenBranch(g.0, cont + 1, cont, false, AddBlock(AddBlock(g.1))), cont + 1);
      var end := GenIfRest(u, g.0, body, g.1);
      IfEnds(u, g.0, body, g.1, inner, end);
      regs' := SimulateIfValue(w, code, u, start, body, g.0, g.1, inner, end, regs1, q.st, gas);
    }
  }

  /** The if statement once its condition is in a register. */
  lemma {:induction false} SimulateIfValue(
    w: World, code: seq<Block>, u: Unit, start: Config, body: seq<Stmt>, o: Operand, b: Fn, inner: Fn, end: Fn,
    regs: Regs, st: State, gas: nat) returns (regs': Regs)
    requires Ready(b) && Covers(code, end)
    requires inner == SetInsert(GenBranch(o, |b.blocks| + 1, |b.blocks|, false, AddBlock(AddBlock(b))), |b.blocks| + 1)
    requires Inserting(inner) && end == SetInsert(Emit(GenBody(u, body, inner), Br(|b.blocks|)), |b.blocks|)
    requires Reaches(w, code, start, Here(b, regs, st, gas))
    ensures SimulatesStmt(w, code, u, start, end,
                          if Lshr3(ValueOf(regs, o)) != 0 then JitBody(w, u.symbols, u.guards, body, st, gas)
                          else Normal(st, gas), regs')
    decreases body, 1, 1
  {
    var cont := |b.blocks|;
    IfOpens(o, b);
    CoversEarlier(code, inner, Emit(GenBody(u, body, inner), Br(cont)));
    var regs1 := SimulateBranch(w, code, start, o, cont + 1, cont, false, AddBlock(AddBlock(b)), regs, st, gas);
    regs' := SimulateIfBody(w, code, u, start, body, cont, inner, Lshr3(ValueOf(regs, o)) != 0, regs1, st, gas);
  }

  lemma IfEnds(u: Unit, o: Operand, body: seq<Stmt>, b: Fn, inner: Fn, end: Fn)
    requires Inserting(b) && end == GenIfRest(u, o, body, b)
    requires inner == SetInsert(GenBranch(o, |b.blocks| + 1, |b.blocks|, false, AddBlock(AddBlock(b))), |b.blocks| + 1)
    ensures end == SetInsert(Emit(GenBody(u, body, inner), Br(|b.blocks|)), |b.blocks|)
  {
  }

  /** Both arms of an if statement meet in the continuation block, which nothing else has touched. */
  lemma {:induction false} SimulateIfBody(
    w: World, code: seq<Block>, u: Unit, start: Config, body: seq<Stmt>, cont: nat, inner: Fn, taken: bool,
    regs: Regs, st: State, gas: nat) returns (regs': Regs)
    requires |inner.blocks| == cont + 2 && inner.cur == Some(cont + 1)
    requires inner.blocks[cont] == inner.blocks[cont + 1] == []
    requires Covers(code, Emit(GenBody(u, body, inner), Br(cont)))
    requires Reaches(w, code, start, StartOf(if taken then cont + 1 else cont, regs, st, gas))
    ensures SimulatesStmt(w, code, u, start, SetInsert(Emit(GenBody(u, body, inner), Br(cont)), cont),
                          if taken then JitBody(w, u.symbols, u.guards, body, st, gas) else Normal(st, gas), regs')
    decreases body, 1, 0
  {
    regs' := regs;
    ContinuationIsFree(u, body, cont, inner);
    if taken {
      var b3 := GenBody(u, body, inner);
      CoversEarlier(code, b3, Emit(b3, Br(cont)));
      regs' := SimulateBody(w, code, u, start, body, inner, regs, st, gas);
      var o := JitBody(w, u.symbols, u.guards, body, st, gas);
      if o.Normal? {
        RunEmitted(w, code, start, b3, Br(cont), regs', o.st, o.gas);
      }
    }
  }

  lemma ContinuationIsFree(u: Unit, body: seq<Stmt>, cont: nat, inner: Fn)
    requires |inner.blocks| == cont + 2 && inner.cur == Some(cont + 1)
    requires inner.blocks[cont] == inner.blocks[cont + 1] == []
    ensures Emit(GenBody(u, body, inner), Br(cont)).blocks[cont] == []
  {
    GenBodyGrows(u, body, inner);
    BranchFrom(inner, GenBody(u, body, inner), cont);
  }

  /* ---- While ---- */

  lemma BranchElsewhere(o: Operand, taken: nat, skipped: nat, loop: bool, b: Fn, j: nat)
    requires Inserting(b) && j < |b.blocks| && j != b.cur.value
    ensures GenBranch(o, taken, skipped, loop, b).blocks[j] == b.blocks[j]
  {
  }

  /** The body block is empty when it is filled, and so is the continuation block in the end. */
  lemma LoopBlocks(u: Unit, cond: Expr, body: seq<Stmt>, head: nat, b: Fn)
    requires Ready(b) && b.cur == Some(head) && |b.blocks| == head + 3
    requires b.blocks[head + 1] == b.blocks[head + 2] == []
    ensures var (o, b1) := GenExpr(u, cond, b);
            var inner := SetInsert(GenBranch(o, head + 2, head + 1, true, b1), head + 2);
            inner.blocks[head + 2] == [] && inner.blocks[head + 1] == []
  {
    var (o, b1) := GenExpr(u, cond, b);
    assert |b1.blocks| >= head + 3 && b1.blocks[head + 1] == b1.blocks[head + 2] == []
      && b1.cur.value != head + 1 && b1.cur.value != head + 2 by {
      GenExprGrows(u, cond, b);
    }
    BranchElsewhere(o, head + 2, head + 1, true, b1, head + 1);
    BranchElsewhere(o, head + 2, head + 1, true, b1, head + 2);
  }

  /** The loop from its header, for any number of iterations still to come. */
  lemma {:induction false} SimulateLoop(
    w: World, code: seq<Block>, u: Unit, start: Config, cond: Expr, body: seq<Stmt>, head: nat, b: Fn, end: Fn,
    regs: Regs, st: State, gas: nat) returns (regs': Regs)
    requires Ready(b) && b.cur == Some(head) && |b.blocks| == head + 3
    requires b.blocks[head] == b.blocks[head + 1] == b.blocks[head + 2] == []
    requires end == GenLoop(u, cond, body, head, b) && Covers(code, end)
    requires Reaches(w, code, start, StartOf(head, regs, st, gas))
    ensures SimulatesStmt(w, code, u, start, end, JitLoop(w, u.symbols, u.guards, cond, body, st, gas), regs')
    decreases body, 2, gas
  {
    var g := GenExpr(u, cond, b);
    var inner := SetInsert(GenBranch(g.0, head + 2, head + 1, true, g.1), head + 2);
    LoopBlocks(u, cond, body, head, b);
    CoversEarlier(code, inner, Emit(GenBody(u, body, inner), Br(head)));
    CoversEarlier(code, g.1, inner);
    var regs0 := SimulateExpr(w, code, u, start, cond, b, regs, st, gas);
    var q := JitExpr(w, u.symbols, u.guards, cond, st);
    var o, regs1 := SimulateIteration(w, code, u, start, body, head, b.next, regs, gas, g, q, regs0, inner);
    JitLoopUnfolds(w, u, cond, body, st, gas);
    if o.Normal? && Lshr3(q.v) != 0 {
      regs' := SimulateLoop(w, code, u, start, cond, body, head, b, end, regs1, o.st, o.gas);
    } else {
      regs' := regs1;
      LeaveLoop(u, cond, body, head, b, inner, end);
      LoopIsLeft(w, code, u, start, head, g.1, end, o, regs1);
    }
  }

  /** The loop has been left through its header, or the function has stopped. */
  lemma LoopIsLeft(
    w: World, code: seq<Block>, u: Unit, start: Config, head: nat, b: Fn, end: Fn, o: Outcome, regs: Regs)
    requires Inserting(end) && end.cur == Some(head + 1) && end.blocks[head + 1] == []
    requires if o.Normal? then Reaches(w, code, start, StartOf(head + 1, regs, o.st, o.gas))
             else SimulatesStmt(w, code, u, start, b, o, regs)
    ensures SimulatesStmt(w, code, u, start, end, o, regs)
  {
  }

  lemma JitLoopUnfolds(w: World, u: Unit, cond: Expr, body: seq<Stmt>, st: State, gas: nat)
    ensures var q := JitExpr(w, u.symbols, u.guards, cond, st);
            var o := IterationOutcome(w, u, q, body, gas);
            && (o.Normal? && Lshr3(q.v) != 0 ==> o.gas < gas)
            && JitLoop(w, u.symbols, u.guards, cond, body, st, gas)
               == if o.Normal? && Lshr3(q.v) != 0
                  then JitLoop(w, u.symbols, u.guards, cond, body, o.st, o.gas)
                  else o
  {
  }

  /** The outcome of one pass through the header: leaving the loop, or the body's. */
  function IterationOutcome(w: World, u: Unit, q: ExprOutcome, body: seq<Stmt>, gas: nat): (o: Outcome)
    ensures o.Normal? ==> q.Value?
  {
    match q
    case Value(v, st) =>
      if Lshr3(v) == 0 then Normal(st, gas)
      else if gas == 0 then Exhausted
      else JitBody(w, u.symbols, u.guards, body, st, gas - 1)
    case o => Stopped(o, gas)
  }

  /** One pass through the header ends in the continuation block, back at the header, or for good. */
  lemma {:induction false} SimulateIteration(
    w: World, code: seq<Block>, u: Unit, start: Config, body: seq<Stmt>, head: nat, n: nat, regs: Regs, gas: nat,
    g: (Operand, Fn), q: ExprOutcome, regs0: Regs, inner: Fn) returns (o: Outcome, regs': Regs)
    requires Inserting(g.1) && inner == SetInsert(GenBranch(g.0, head + 2, head + 1, true, g.1), head + 2)
    requires head + 3 <= |inner.blocks| && inner.blocks[head + 1] == inner.blocks[head + 2] == []
    requires Covers(code, Emit(GenBody(u, body, inner), Br(head)))
    requires Simulates(w, code, u, start, n, regs, gas, g, q, regs0)
    ensures o == IterationOutcome(w, u, q, body, gas)
    ensures if o.Normal?
            then Reaches(w, code, start, StartOf(if Lshr3(q.v) == 0 then head + 1 else head, regs', o.st, o.gas))
            else SimulatesStmt(w, code, u, start, g.1, o, regs')
    decreases body, 1, 2
  {
    o := IterationOutcome(w, u, q, body, gas);
    regs' := regs0;
    if q.Value? {
      CoversEarlier(code, inner, Emit(GenBody(u, body, inner), Br(head)));
      regs' := SimulatePass(w, code, u, start, body, head, gas, g, q.v, q.st, regs0, inner, o);
    }
  }

  /** The branch at the header, and the body if the condition holds. */
  lemma {:induction false} SimulatePass(
    w: World, code: seq<Block>, u: Unit, start: Config, body: seq<Stmt>, head: nat, gas: nat,
    g: (Operand, Fn), v: Word, st: State, regs0: Regs, inner: Fn, o: Outcome) returns (regs': Regs)
    requires Inserting(g.1) && inner == SetInsert(GenBranch(g.0, head + 2, head + 1, true, g.1), head + 2)
    requires head + 3 <= |inner.blocks| && inner.blocks[head + 1] == inner.blocks[head + 2] == []
    requires Covers(code, Emit(GenBody(u, body, inner), Br(head))) && Covers(code, inner)
    requires Reaches(w, code, start, Here(g.1, regs0, st, gas)) && ValueOf(regs0, g.0) == v
    requires o == IterationOutcome(w, u, Value(v, st), body, gas)
    ensures if o.Normal?
            then Reaches(w, code, start, StartOf(if Lshr3(v) == 0 then head + 1 else head, regs', o.st, o.gas))
            else SimulatesStmt(w, code, u, start, g.1, o, regs')
    decreases body, 1, 1
  {
    regs' := SimulateBranch(w, code, start, g.0, head + 2, head + 1, true, g.1, regs0, st, gas);
    if Lshr3(v) != 0 && gas > 0 {
      regs' := SimulateLoopBody(w, code, u, start, body, head, inner, regs', st, gas - 1);
      StoppedAnywhere(w, code, u, start, inner, g.1, o, regs');
    }
  }

  /** An outcome that stops the function does not depend on where code would be inserted next. */
  lemma StoppedAnywhere(
    w: World, code: seq<Block>, u: Unit, start: Config, b: Fn, b': Fn, o: Outcome, regs: Regs)
    ensures !o.Normal? && SimulatesStmt(w, code, u, start, b, o, regs)
            ==> SimulatesStmt(w, code, u, start, b', o, regs)
  {
  }

  lemma {:induction false} SimulateLoopBody(
    w: World, code: seq<Block>, u: Unit, start: Config, body: seq<Stmt>, head: nat, inner: Fn,
    regs: Regs, st: State, gas: nat) returns (regs': Regs)
    requires head + 3 <= |inner.blocks| && inner.cur == Some(head + 2) && inner.blocks[head + 2] == []
    requires Covers(code, Emit(GenBody(u, body, inner), Br(head)))
    requires Reaches(w, code, start, StartOf(head + 2, regs, st, gas))
    ensures var o := JitBody(w, u.symbols, u.guards, body, st, gas);
            if o.Normal? then Reaches(w, code, start, StartOf(head, regs', o.st, o.gas))
            else SimulatesStmt(w, code, u, start, inner, o, regs')
    decreases body, 1, 0
  {
    var b3 := GenBody(u, body, inner);
    CoversEarlier(code, b3, Emit(b3, Br(head)));
    regs' := SimulateBody(w, code, u, start, body, inner, regs, st, gas);
    var o := JitBody(w, u.symbols, u.guards, body, st, gas);
    if o.Normal? {
      RunEmitted(w, code, start, b3, Br(head), regs', o.st, o.gas);
    }
  }

  lemma LeaveLoop(u: Unit, cond: Expr, body: seq<Stmt>, head: nat, b: Fn, inner: Fn, end: Fn)
    requires Ready(b) && |b.blocks| == head + 3 && end == GenLoop(u, cond, body, head, b)
    requires var (o, b1) := GenExpr(u, cond, b);
             inner == SetInsert(GenBranch(o, head + 2, head + 1, true, b1), head + 2)
    requires inner.blocks[head + 1] == inner.blocks[head + 2] == []
    ensures end.cur == Some(head + 1) && end.blocks[head + 1] == []
  {
    assert end == SetInsert(Emit(GenBody(u, body, inner), Br(head)), head + 1);
    GenBodyGrows(u, body, inner);
    BranchFrom(inner, GenBody(u, body, inner), head);
  }
}
