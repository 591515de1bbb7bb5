/**
 The shape of generated code: while a function is under construction its
 insertion point is either empty or a block without terminator, and when it is
 finished every block ends in exactly one terminator, whose targets exist.
 */
module Blocks {
  import opened Tagged
  import opened Ast
  import opened Runtime
  import opened Guarded
  import opened Ir
  import opened CodeGen

  predicate IsTerminator(i: Instr) {
    i.Br? || i.CondBr? || i.Ret?
  }

  predicate TargetsBelow(i: Instr, n: nat) {
    match i
    case Br(t) => t < n
    case CondBr(_, t, f, _) => t < n && f < n
    case _ => true
  }

  ghost predicate Open(bl: Block) {
    forall i | i in bl :: !IsTerminator(i)
  }

  /** Exactly one terminator, at the end, to blocks that exist among `n`. */
  ghost predicate Closed(bl: Block, n: nat) {
    && bl != []
    && IsTerminator(bl[|bl| - 1])
    && TargetsBelow(bl[|bl| - 1], n)
    && Open(bl[..|bl| - 1])
  }

  /** Ready to emit: the insertion point is a block that is still open. */
  ghost predicate Ready(b: Fn) {
    Inserting(b) && Open(b.blocks[b.cur.value])
  }

  /**
   One construct was generated from `b`: it touched only the block of the
   insertion point and new blocks, all of them are closed except the new
   insertion point, and that one is open.
   */
  ghost predicate Grown(b: Fn, b': Fn)
    requires Inserting(b)
  {
    && |b.blocks| <= |b'.blocks|
    && (forall j :: 0 <= j < |b.blocks| && j != b.cur.value ==> b'.blocks[j] == b.blocks[j])
    && (b'.cur.Some? ==> Ready(b') && (b'.cur == b.cur || b'.cur.value >= |b.blocks|))
    && (forall j :: 0 <= j < |b'.blocks| && (j == b.cur.value || j >= |b.blocks|) && b'.cur != Some(j)
          ==> Closed(b'.blocks[j], |b'.blocks|))
  }

  lemma GrownTransitive(a: Fn, b: Fn, c: Fn)
    requires Inserting(a) && Ready(b) && Grown(a, b) && Grown(b, c)
    ensures Grown(a, c)
  {
  }

  lemma EmitGrows(b: Fn, i: Instr)
    requires Ready(b) && !IsTerminator(i)
    ensures Ready(Emit(b, i)) && Grown(b, Emit(b, i)) && Emit(b, i).cur == b.cur
    ensures |Emit(b, i).blocks| == |b.blocks|
  {
  }

  lemma DefineGrows(b: Fn, i: Instr)
    requires Ready(b) && !IsTerminator(i)
    ensures Ready(Define(b, i)) && Grown(b, Define(b, i)) && Define(b, i).cur == b.cur
    ensures |Define(b, i).blocks| == |b.blocks|
  {
    EmitGrows(b.(next := b.next + 1), i);
  }

  /** Emitting a terminator closes the block of the insertion point and leaves the others alone. */
  lemma EmitCloses(b: Fn, i: Instr, n: nat)
    requires Ready(b) && IsTerminator(i) && TargetsBelow(i, n)
    ensures var b' := Emit(b, i);
            && |b'.blocks| == |b.blocks| && Closed(b'.blocks[b.cur.value], n)
            && forall j :: 0 <= j < |b.blocks| && j != b.cur.value ==> b'.blocks[j] == b.blocks[j]
  {
    var bl := b.blocks[b.cur.value];
    assert (bl + [i])[..|bl|] == bl;
  }

  /* ---- Expressions ---- */

  lemma {:induction false} GenExprGrows(u: Unit, e: Expr, b: Fn)
    requires Ready(b)
    ensures Ready(GenExpr(u, e, b).1) && Grown(b, GenExpr(u, e, b).1)
    decreases e, 0
  {
    match e
    case Number(_) =>
    case VarRef(x) => DefineGrows(b, LoadVar(b.next, Resolve(u.symbols, x)));
    case Binary(op, l, r) =>
      var (lo, b1) := GenExpr(u, l, b);
      var (ro, b2) := GenExpr(u, r, b1);
      GenExprGrows(u, l, b);
      GenExprGrows(u, r, b1);
      GrownTransitive(b, b1, b2);
      GenOpGrows(op, lo, ro, b2);
      GrownTransitive(b, b2, GenOp(op, lo, ro, b2).1);
    case MethodCall(site, callee, sel, args) =>
      var (obj, b1) := GenExpr(u, callee, b);
      var (os, b2) := GenArgs(u, args, b1);
      GenExprGrows(u, callee, b);
      GenArgsGrows(u, args, b1);
      GrownTransitive(b, b1, b2);
      GenGuardedGrows(u, site, sel, obj, os, b2);
      GrownTransitive(b, b2, GenGuarded(u, site, sel, obj, os, b2).1);
    case ClosureCall(callee, args) =>
      var (f, b1) := GenExpr(u, callee, b);
      var (os, b2) := GenArgs(u, args, b1);
      GenExprGrows(u, callee, b);
      GenArgsGrows(u, args, b1);
      GrownTransitive(b, b1, b2);
      GenClosureCallGrows(f, os, b2);
      GrownTransitive(b, b2, GenClosureCall(f, os, b2).1);
    case NewObject(cls) => DefineGrows(b, New(b.next, cls));
    case ClosureLiteral(c) =>
      var captured := AddressesOf(u.symbols, c.boundVars);
      var b1 := Define(b, MakeClosure(b.next, c, captured));
      DefineGrows(b, MakeClosure(b.next, c, captured));
      EmitGrows(b1, StoreVar(StoreAddr(u, c.name), Reg(b.next)));
      GrownTransitive(b, b1, Emit(b1, StoreVar(StoreAddr(u, c.name), Reg(b.next))));
  }

  lemma {:induction false} GenArgsGrows(u: Unit, args: seq<Expr>, b: Fn)
    requires Ready(b)
    ensures Ready(GenArgs(u, args, b).1) && Grown(b, GenArgs(u, args, b).1)
    decreases args, 0
  {
    if args != [] {
      var b1 := GenExpr(u, args[0], b).1;
      GenExprGrows(u, args[0], b);
      GenArgsGrows(u, args[1..], b1);
      GrownTransitive(b, b1, GenArgs(u, args[1..], b1).1);
    }
  }

  lemma GenOpGrows(op: BinOp, l: Operand, r: Operand, b: Fn)
    requires Ready(b)
    ensures Ready(GenOp(op, l, r, b).1) && Grown(b, GenOp(op, l, r, b).1)
  {
    match op
    case Comparison(c) =>
      var b1 := Define(b, ICmp(b.next, c, l, r));
      DefineGrows(b, ICmp(b.next, c, l, r));
      DefineGrows(b1, BoxInt(b1.next, Reg(b.next)));
      GrownTransitive(b, b1, Define(b1, BoxInt(b1.next, Reg(b.next))));
    case Arithmetic(a) => DefineGrows(b, CallHelper(b.next, a, l, r));
  }

  lemma GenClosureCallGrows(f: Operand, args: seq<Operand>, b: Fn)
    requires Ready(b)
    ensures Ready(GenClosureCall(f, args, b).1) && Grown(b, GenClosureCall(f, args, b).1)
  {
    var b1 := Define(b, CallClosurePtr(b.next, f, args));
    DefineGrows(b, CallClosurePtr(b.next, f, args));
    EmitGrows(b1, SetCurrent);
    GrownTransitive(b, b1, Emit(b1, SetCurrent));
  }

  /** What a stage of a guarded call does: it closes the block it starts in and leaves the others alone. */
  ghost predicate Closes(b: Fn, b': Fn, n: nat)
    requires Inserting(b)
  {
    && |b'.blocks| == |b.blocks|
    && Closed(b'.blocks[b.cur.value], n)
    && forall j :: 0 <= j < |b.blocks| && j != b.cur.value ==> b'.blocks[j] == b.blocks[j]
  }

  lemma GenNullTestCloses(obj: Operand, b: Fn)
    requires Ready(b)
    ensures var b' := GenNullTest(obj, b);
            var n := |b.blocks|;
            && Closed(b'.blocks[b.cur.value], n + 3)
            && b'.blocks[n] == b'.blocks[n + 1] == b'.blocks[n + 2] == []
            && forall j :: 0 <= j < n && j != b.cur.value ==> b'.blocks[j] == b.blocks[j]
  {
    var b0 := AddBlock(AddBlock(b));
    var b1 := AddBlock(Define(b0, IsNotNull(b.next, obj)));
    DefineGrows(b0, IsNotNull(b.next, obj));
    EmitCloses(b1, CondBr(Reg(b.next), |b.blocks| + 2, |b.blocks| + 1, false), |b.blocks| + 3);
  }

  lemma GenClassTestCloses(assumed: Word, obj: Operand, hit: nat, b: Fn, n: nat)
    requires Ready(b) && hit + 1 < n
    ensures Closes(b, GenClassTest(assumed, obj, hit, b), n)
  {
    if assumed == SMALL_INT_CLASS {
      DefineGrows(b, AndTag(b.next, obj));
      EmitCloses(Define(b, AndTag(b.next, obj)), CondBr(Reg(b.next), hit, hit + 1, false), n);
    } else {
      var b1 := Define(b, LoadClass(b.next, obj));
      DefineGrows(b, LoadClass(b.next, obj));
      DefineGrows(b1, IsClass(b1.next, Reg(b.next), assumed));
      EmitCloses(Define(b1, IsClass(b1.next, Reg(b.next), assumed)), CondBr(Reg(b1.next), hit, hit + 1, false), n);
    }
  }

  lemma GenMissCloses(u: Unit, site: nat, b: Fn, n: nat)
    requires Ready(b)
    ensures Closes(b, GenMiss(u, site, b), n)
  {
    DefineGrows(b, Patchpoint(b.next, site, u.frame));
    EmitCloses(Define(b, Patchpoint(b.next, site, u.frame)), Instr.Ret(Reg(b.next)), n);
  }

  lemma GenHitGrows(cached: nat, site: nat, sel: string, obj: Operand, args: seq<Operand>, b: Fn)
    requires Ready(b)
    ensures var b' := GenHit(cached, site, sel, obj, args, b).1;
            Ready(b') && Grown(b, b') && b'.cur == b.cur && |b'.blocks| == |b.blocks|
  {
    var b1 := Emit(b, ResetCounter(site));
    EmitGrows(b, ResetCounter(site));
    DefineGrows(b1, CallSlot(b1.next, cached, obj, sel, args));
    EmitGrows(Define(b1, CallSlot(b1.next, cached, obj, sel, args)), SetCurrent);
  }

  lemma GenGuardedGrows(u: Unit, site: nat, sel: string, obj: Operand, args: seq<Operand>, b: Fn)
    requires Ready(b)
    ensures Ready(GenGuarded(u, site, sel, obj, args, b).1) && Grown(b, GenGuarded(u, site, sel, obj, args, b).1)
  {
    var c1 := SetInsert(GenNullTest(obj, b), |b.blocks| + 2);
    GenNullTestCloses(obj, b);
    GuardFromClassTest(u, site, sel, obj, args, b, c1);
  }

  lemma GuardFromClassTest(u: Unit, site: nat, sel: string, obj: Operand, args: seq<Operand>, b: Fn, c1: Fn)
    requires Ready(b)
    requires var hit := |b.blocks|;
             && |c1.blocks| == hit + 3 && c1.cur == Some(hit + 2)
             && Closed(c1.blocks[b.cur.value], hit + 3)
             && c1.blocks[hit] == c1.blocks[hit + 1] == c1.blocks[hit + 2] == []
             && (forall j :: 0 <= j < hit && j != b.cur.value ==> c1.blocks[j] == b.blocks[j])
    ensures var hit := |b.blocks|;
            var c2 := SetInsert(GenClassTest(GuardOf(u.guards, site).assumed, obj, hit, c1), hit + 1);
            var c3 := SetInsert(GenMiss(u, site, c2), hit);
            var r := GenHit(GuardOf(u.guards, site).cached, site, sel, obj, args, c3).1;
            Ready(r) && Grown(b, r)
  {
    var hit := |b.blocks|;
    var g := GuardOf(u.guards, site);
    GenClassTestCloses(g.assumed, obj, hit, c1, hit + 3);
    var c2 := SetInsert(GenClassTest(g.assumed, obj, hit, c1), hit + 1);
    GenMissCloses(u, site, c2, hit + 3);
    var c3 := SetInsert(GenMiss(u, site, c2), hit);
    GenHitGrows(g.cached, site, sel, obj, args, c3);
    GuardJoins(b, c1, c2, c3, GenHit(g.cached, site, sel, obj, args, c3).1);
  }

  lemma GuardJoins(b: Fn, c1: Fn, c2: Fn, c3: Fn, r: Fn)
    requires Ready(b)
    requires var hit := |b.blocks|;
             && |c1.blocks| == hit + 3 && c1.cur == Some(hit + 2) && Closed(c1.blocks[b.cur.value], hit + 3)
             && (forall j :: 0 <= j < hit && j != b.cur.value ==> c1.blocks[j] == b.blocks[j])
             && Closes(c1, c2, hit + 3) && c2.cur == Some(hit + 1)
             && Closes(c2, c3, hit + 3) && c3.cur == Some(hit)
             && Grown(c3, r) && r.cur == c3.cur && |r.blocks| == hit + 3
    ensures Grown(b, r)
  {
  }

  /* ---- Statements ---- */

  lemma GenBranchCloses(o: Operand, taken: nat, skipped: nat, loop: bool, b: Fn, n: nat)
    requires Ready(b) && taken < n && skipped < n
    ensures Closes(b, GenBranch(o, taken, skipped, loop, b), n)
  {
    var b1 := Define(b, LShr(b.next, o));
    DefineGrows(b, LShr(b.next, o));
    var b2 := Define(b1, IsNotNull(b1.next, Reg(b.next)));
    DefineGrows(b1, IsNotNull(b1.next, Reg(b.next)));
    EmitCloses(b2, CondBr(Reg(b1.next), taken, skipped, loop), n);
  }

  lemma GenAssignGrows(u: Unit, x: string, e: Expr, b: Fn)
    requires Ready(b)
    ensures Ready(GenAssign(u, x, e, b)) && Grown(b, GenAssign(u, x, e, b))
  {
    var (o, b1) := GenExpr(u, e, b);
    GenExprGrows(u, e, b);
    EmitGrows(b1, StoreVar(StoreAddr(u, x), o));
    GrownTransitive(b, b1, GenAssign(u, x, e, b));
  }

  lemma {:induction false} GenStmtGrows(u: Unit, s: Stmt, b: Fn)
    requires Ready(b)
    ensures Grown(b, GenStmt(u, s, b))
    decreases s, 1
  {
    match s
    case Decl(_, None) =>
    case Decl(x, Some(e)) => GenAssignGrows(u, x, e, b);
    case Assign(x, e) => GenAssignGrows(u, x, e, b);
    case Return(e) =>
      var (o, b1) := GenExpr(u, e, b);
      GenExprGrows(u, e, b);
      EmitCloses(b1, Instr.Ret(o), 0);
    case Evaluate(e) => GenExprGrows(u, e, b);
    case If(cond, body) => GenIfGrows(u, cond, body, b);
    case While(cond, body) => GenWhileGrows(u, cond, body, b);
  }

  /** The end of a nested body: the branch to `target` closes whatever the body left open. */
  lemma BranchFrom(b: Fn, b': Fn, target: nat)
    requires Inserting(b) && Grown(b, b') && target < |b.blocks|
    ensures var b1 := Emit(b', Br(target));
            && |b1.blocks| == |b'.blocks|
            && (forall j :: 0 <= j < |b.blocks| && j != b.cur.value ==> b1.blocks[j] == b.blocks[j])
            && (forall j :: 0 <= j < |b1.blocks| && (j == b.cur.value || j >= |b.blocks|)
                  ==> Closed(b1.blocks[j], |b1.blocks|))
  {
    if b'.cur.Some? {
      EmitCloses(b', Br(target), |b'.blocks|);
    }
  }

  /** The header of an if statement: the condition's last block is closed, the two new blocks are empty. */
  lemma IfOpens(o: Operand, b1: Fn)
    requires Ready(b1)
    ensures var cont := |b1.blocks|;
            var b2 := GenBranch(o, cont + 1, cont, false, AddBlock(AddBlock(b1)));
            && |b2.blocks| == cont + 2 && b2.blocks[cont] == b2.blocks[cont + 1] == []
            && Closed(b2.blocks[b1.cur.value], cont + 2)
            && (forall j :: 0 <= j < cont && j != b1.cur.value ==> b2.blocks[j] == b1.blocks[j])
  {
    GenBranchCloses(o, |b1.blocks| + 1, |b1.blocks|, false, AddBlock(AddBlock(b1)), |b1.blocks| + 2);
  }

  lemma {:induction false} GenIfGrows(u: Unit, cond: Expr, body: seq<Stmt>, b: Fn)
    requires Ready(b)
    ensures Grown(b, GenIf(u, cond, body, b))
    decreases body, 3
  {
    var (o, b1) := GenExpr(u, cond, b);
    GenExprGrows(u, cond, b);
    GenIfRestGrows(u, o, body, b1);
    GrownTransitive(b, b1, GenIfRest(u, o, body, b1));
  }

  lemma {:induction false} GenIfRestGrows(u: Unit, o: Operand, body: seq<Stmt>, b1: Fn)
    requires Ready(b1)
    ensures Grown(b1, GenIfRest(u, o, body, b1))
    decreases body, 2
  {
    var cont := |b1.blocks|;
    IfOpens(o, b1);
    IfBodyGrows(u, body, b1, SetInsert(GenBranch(o, cont + 1, cont, false, AddBlock(AddBlock(b1))), cont + 1));
  }

  lemma {:induction false} IfBodyGrows(u: Unit, body: seq<Stmt>, b1: Fn, inner: Fn)
    requires Ready(b1)
    requires var cont := |b1.blocks|;
             && |inner.blocks| == cont + 2 && inner.cur == Some(cont + 1)
             && inner.blocks[cont] == inner.blocks[cont + 1] == []
             && Closed(inner.blocks[b1.cur.value], cont + 2)
             && (forall j :: 0 <= j < cont && j != b1.cur.value ==> inner.blocks[j] == b1.blocks[j])
    ensures Grown(b1, SetInsert(Emit(GenBody(u, body, inner), Br(|b1.blocks|)), |b1.blocks|))
    decreases body, 1
  {
    GenBodyGrows(u, body, inner);
    BranchFrom(inner, GenBody(u, body, inner), |b1.blocks|);
    IfJoins(b1, inner, Emit(GenBody(u, body, inner), Br(|b1.blocks|)));
  }

  lemma IfJoins(b1: Fn, inner: Fn, b3: Fn)
    requires Ready(b1)
    requires var cont := |b1.blocks|;
             && |inner.blocks| == cont + 2 && inner.cur == Some(cont + 1) && inner.blocks[cont] == []
             && Closed(inner.blocks[b1.cur.value], cont + 2)
             && (forall j :: 0 <= j < cont && j != b1.cur.value ==> inner.blocks[j] == b1.blocks[j])
    requires |b3.blocks| >= |inner.blocks|
    requires forall j :: 0 <= j < |inner.blocks| && j != inner.cur.value ==> b3.blocks[j] == inner.blocks[j]
    requires forall j :: 0 <= j < |b3.blocks| && (j == inner.cur.value || j >= |inner.blocks|)
                         ==> Closed(b3.blocks[j], |b3.blocks|)
    ensures Grown(b1, SetInsert(b3, |b1.blocks|))
  {
  }

  /** The way into a loop: the current block ends in a branch to the header, and the new blocks are empty. */
  ghost predicate Entered(b: Fn, b1: Fn)
    requires Inserting(b)
  {
    var head := |b.blocks|;
    && |b1.blocks| == head + 3 && b1.cur == Some(head) && Ready(b1)
    && b1.blocks[head + 1] == b1.blocks[head + 2] == []
    && Closed(b1.blocks[b.cur.value], head + 3)
    && (forall j :: 0 <= j < head && j != b.cur.value ==> b1.blocks[j] == b.blocks[j])
  }

  lemma LoopEntryEnters(b: Fn)
    requires Ready(b)
    ensures Entered(b, GenLoopEntry(b))
  {
    EmitCloses(AddBlock(AddBlock(AddBlock(b))), Br(|b.blocks|), |b.blocks| + 3);
  }

  lemma {:induction false} GenWhileGrows(u: Unit, cond: Expr, body: seq<Stmt>, b: Fn)
    requires Ready(b)
    ensures Grown(b, GenWhile(u, cond, body, b))
    decreases body, 3
  {
    LoopEntryEnters(b);
    GenLoopGrows(u, cond, body, b, GenLoopEntry(b));
  }

  lemma {:induction false} GenLoopGrows(u: Unit, cond: Expr, body: seq<Stmt>, b: Fn, b1: Fn)
    requires Ready(b) && Entered(b, b1)
    ensures Grown(b, GenLoop(u, cond, body, |b.blocks|, b1))
    decreases body, 2
  {
    var (o, b2) := GenExpr(u, cond, b1);
    GenExprGrows(u, cond, b1);
    WhileBodyGrows(u, o, body, b, b1, b2);
  }

  lemma {:induction false} WhileBodyGrows(u: Unit, o: Operand, body: seq<Stmt>, b: Fn, b1: Fn, b2: Fn)
    requires Ready(b) && Entered(b, b1) && Ready(b2) && Grown(b1, b2)
    ensures var head := |b.blocks|;
            var inner := SetInsert(GenBranch(o, head + 2, head + 1, true, b2), head + 2);
            Grown(b, SetInsert(Emit(GenBody(u, body, inner), Br(head)), head + 1))
    decreases body, 1
  {
    var head := |b.blocks|;
    GenBranchCloses(o, head + 2, head + 1, true, b2, |b2.blocks|);
    var inner := SetInsert(GenBranch(o, head + 2, head + 1, true, b2), head + 2);
    GenBodyGrows(u, body, inner);
    BranchFrom(inner, GenBody(u, body, inner), head);
    WhileJoins(b, b1, b2, inner, Emit(GenBody(u, body, inner), Br(head)));
  }

  lemma WhileJoins(b: Fn, b1: Fn, b2: Fn, inner: Fn, b4: Fn)
    requires Ready(b) && Entered(b, b1) && Ready(b2) && Grown(b1, b2)
    requires Closes(b2, inner, |b2.blocks|) && inner.cur == Some(|b.blocks| + 2)
    requires |b4.blocks| >= |inner.blocks|
    requires forall j :: 0 <= j < |inner.blocks| && j != inner.cur.value ==> b4.blocks[j] == inner.blocks[j]
    requires forall j :: 0 <= j < |b4.blocks| && (j == inner.cur.value || j >= |inner.blocks|)
                         ==> Closed(b4.blocks[j], |b4.blocks|)
    ensures Grown(b, SetInsert(b4, |b.blocks| + 1))
  {
    forall j | |b.blocks| <= j < |b4.blocks| && j != |b.blocks| + 1
      ensures Closed(b4.blocks[j], |b4.blocks|)
    {
      if j < |inner.blocks| && j != inner.cur.value {
        assert Closed(inner.blocks[j], |inner.blocks|);
      }
    }
  }

  lemma {:induction false} GenBodyGrows(u: Unit, ss: seq<Stmt>, b: Fn)
    requires Ready(b)
    ensures Grown(b, GenBody(u, ss, b))
    decreases ss, 0
  {
    if ss != [] {
      var b1 := GenStmt(u, ss[0], b);
      GenStmtGrows(u, ss[0], b);
      if b1.cur.Some? {
        GenBodyGrows(u, ss[1..], b1);
        GrownTransitive(b, b1, GenBody(u, ss[1..], b1));
      }
    }
  }
}
