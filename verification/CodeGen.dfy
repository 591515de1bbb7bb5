/**
 Code generation: from the tree to basic blocks. `Fn` is the function under
 construction as the IR builder sees it; `cur` is its insertion point, which a
 `return` statement clears. Instructions created without an insertion point go
 nowhere.
 */
module CodeGen {
  import opened Tagged
  import opened Ast
  import opened Runtime
  import opened Guarded
  import opened Ir

  datatype Fn = Fn(blocks: seq<Block>, cur: Option<nat>, next: nat)

  predicate Inserting(b: Fn) {
    b.cur.Some? && b.cur.value < |b.blocks|
  }

  /** Every block of `b` is a prefix of the block with the same number in `code`. */
  ghost predicate Covers(code: seq<Block>, b: Fn) {
    |b.blocks| <= |code| && forall j :: 0 <= j < |b.blocks| ==> b.blocks[j] <= code[j]
  }

  ghost predicate Extends(b: Fn, b': Fn) {
    Covers(b'.blocks, b) && b.next <= b'.next
  }

  /* ---- Builder primitives ---- */

  function Emit(b: Fn, i: Instr): (b': Fn)
    ensures Extends(b, b')
  {
    if Inserting(b) then b.(blocks := b.blocks[b.cur.value := b.blocks[b.cur.value] + [i]]) else b
  }

  /** An instruction with a result takes the next register. */
  function Define(b: Fn, i: Instr): (b': Fn)
    ensures Extends(b, b')
  {
    Emit(b.(next := b.next + 1), i)
  }

  function AddBlock(b: Fn): (b': Fn)
    ensures Extends(b, b')
  {
    b.(blocks := b.blocks + [[]])
  }

  function SetInsert(b: Fn, k: nat): Fn {
    b.(cur := Some(k))
  }

  function ClearInsert(b: Fn): Fn {
    b.(cur := None)
  }

  lemma ExtendsTransitive(a: Fn, b: Fn, c: Fn)
    requires Extends(a, b) && Extends(b, c)
    ensures Extends(a, c)
  {
  }

  lemma CoversEarlier(code: seq<Block>, a: Fn, b: Fn)
    requires Extends(a, b) && Covers(code, b)
    ensures Covers(code, a)
  {
  }

  /* ---- Expressions ---- */

  /** What a compilation needs to know: variable addresses, the patchpoint's frame and the fixed guards. */
  datatype Unit = Unit(symbols: Table, frame: seq<Addr>, guards: Guards)

  function StoreAddr(u: Unit, x: string): Addr {
    var a := Resolve(u.symbols, x);
    if a.Null? then Global(x) else a
  }

  function GenExpr(u: Unit, e: Expr, b: Fn): (r: (Operand, Fn))
    requires Inserting(b)
    ensures Extends(b, r.1) && Inserting(r.1)
    decreases e, 0
  {
    match e
    case Number(n) => (Imm(Encode(n)), b)
    case VarRef(x) => (Reg(b.next), Define(b, LoadVar(b.next, Resolve(u.symbols, x))))
    case Binary(op, l, r) =>
      var (lo, b1) := GenExpr(u, l, b);
      var (ro, b2) := GenExpr(u, r, b1);
      ExtendsTransitive(b, b1, b2);
      GenOp(op, lo, ro, b2)
    case MethodCall(site, callee, sel, args) =>
      var (obj, b1) := GenExpr(u, callee, b);
      var (os, b2) := GenArgs(u, args, b1);
      ExtendsTransitive(b, b1, b2);
      GenGuarded(u, site, sel, obj, os, b2)
    case ClosureCall(callee, args) =>
      var (f, b1) := GenExpr(u, callee, b);
      var (os, b2) := GenArgs(u, args, b1);
      ExtendsTransitive(b, b1, b2);
      GenClosureCall(f, os, b2)
    case NewObject(cls) => (Reg(b.next), Define(b, New(b.next, cls)))
    case ClosureLiteral(c) =>
      var captured := AddressesOf(u.symbols, c.boundVars);
      var b1 := Define(b, MakeClosure(b.next, c, captured));
      (Reg(b.next), Emit(b1, StoreVar(StoreAddr(u, c.name), Reg(b.next))))
  }

  function GenArgs(u: Unit, args: seq<Expr>, b: Fn): (r: (seq<Operand>, Fn))
    requires Inserting(b)
    ensures Extends(b, r.1) && Inserting(r.1)
    decreases args, 0
  {
    if args == [] then ([], b)
    else
      var (o, b1) := GenExpr(u, args[0], b);
      var (os, b2) := GenArgs(u, args[1..], b1);
      ExtendsTransitive(b, b1, b2);
      ([o] + os, b2)
  }

  function GenOp(op: BinOp, l: Operand, r: Operand, b: Fn): (g: (Operand, Fn))
    requires Inserting(b)
    ensures Extends(b, g.1) && Inserting(g.1)
  {
    match op
    case Comparison(c) =>
      var b1 := Define(b, ICmp(b.next, c, l, r));
      (Reg(b1.next), Define(b1, BoxInt(b1.next, Reg(b.next))))
    case Arithmetic(a) => (Reg(b.next), Define(b, CallHelper(b.next, a, l, r)))
  }

  /** The call through the closure's invoke pointer; afterwards this function is the running one again. */
  function GenClosureCall(f: Operand, args: seq<Operand>, b: Fn): (r: (Operand, Fn))
    requires Inserting(b)
    ensures Extends(b, r.1) && Inserting(r.1)
  {
    (Reg(b.next), Emit(Define(b, CallClosurePtr(b.next, f, args)), SetCurrent))
  }

  /**
   A guarded call: null goes to the miss block, then the class test; the miss
   block exits through a patchpoint and returns what comes back, and generation
   goes on in the hit block.
   */
  function GenGuarded(u: Unit, site: nat, sel: string, obj: Operand, args: seq<Operand>, b: Fn): (r: (Operand, Fn))
    requires Inserting(b)
    ensures Extends(b, r.1) && Inserting(r.1)
  {
    GenDecided(u, site, sel, obj, args, |b.blocks|, SetInsert(GenNullTest(obj, b), |b.blocks| + 2))
  }

  /** From the block of the class test on. */
  function GenDecided(u: Unit, site: nat, sel: string, obj: Operand, args: seq<Operand>, hit: nat, b: Fn)
    : (r: (Operand, Fn))
    requires Inserting(b) && hit + 2 < |b.blocks|
    ensures Extends(b, r.1) && Inserting(r.1)
  {
    var missing := SetInsert(GenClassTest(GuardOf(u.guards, site).assumed, obj, hit, b), hit + 1);
    var hitting := SetInsert(GenMiss(u, site, missing), hit);
    GenHit(GuardOf(u.guards, site).cached, site, sel, obj, args, hitting)
  }

  /** Creates the hit and miss blocks and the block of the class test. */
  function GenNullTest(obj: Operand, b: Fn): (b': Fn)
    requires Inserting(b)
    ensures Extends(b, b') && |b'.blocks| == |b.blocks| + 3
  {
    var hit := |b.blocks|;
    var b1 := Define(AddBlock(AddBlock(b)), IsNotNull(b.next, obj));
    Emit(AddBlock(b1), CondBr(Reg(b.next), hit + 2, hit + 1, false))
  }

  function GenClassTest(assumed: Word, obj: Operand, hit: nat, b: Fn): (b': Fn)
    requires Inserting(b)
    ensures Extends(b, b') && |b'.blocks| == |b.blocks|
  {
    if assumed == SMALL_INT_CLASS then
      Emit(Define(b, AndTag(b.next, obj)), CondBr(Reg(b.next), hit, hit + 1, false))
    else
      var b1 := Define(b, LoadClass(b.next, obj));
      var b2 := Define(b1, IsClass(b1.next, Reg(b.next), assumed));
      Emit(b2, CondBr(Reg(b1.next), hit, hit + 1, false))
  }

  function GenMiss(u: Unit, site: nat, b: Fn): (b': Fn)
    requires Inserting(b)
    ensures Extends(b, b') && |b'.blocks| == |b.blocks|
  {
    Emit(Define(b, Patchpoint(b.next, site, u.frame)), Instr.Ret(Reg(b.next)))
  }

  function GenHit(cached: nat, site: nat, sel: string, obj: Operand, args: seq<Operand>, b: Fn): (r: (Operand, Fn))
    requires Inserting(b)
    ensures Extends(b, r.1) && Inserting(r.1) && |r.1.blocks| == |b.blocks|
  {
    var b1 := Emit(b, ResetCounter(site));
    (Reg(b1.next), Emit(Define(b1, CallSlot(b1.next, cached, obj, sel, args)), SetCurrent))
  }

  /* ---- Statements ---- */

  function GenBody(u: Unit, ss: seq<Stmt>, b: Fn): (b': Fn)
    requires b.cur.Some? ==> Inserting(b)
    ensures Extends(b, b') && (b'.cur.Some? ==> Inserting(b'))
    decreases ss, 0
  {
    if ss == [] || b.cur.None? then b
    else
      var b1 := GenStmt(u, ss[0], b);
      var b2 := GenBody(u, ss[1..], b1);
      ExtendsTransitive(b, b1, b2);
      b2
  }

  function GenStmt(u: Unit, s: Stmt, b: Fn): (b': Fn)
    requires Inserting(b)
    ensures Extends(b, b') && (b'.cur.Some? ==> Inserting(b'))
    decreases s, 1
  {
    match s
    case Decl(_, None) => b
    case Decl(x, Some(e)) => GenAssign(u, x, e, b)
    case Assign(x, e) => GenAssign(u, x, e, b)
    case Return(e) =>
      var (o, b1) := GenExpr(u, e, b);
      ClearInsert(Emit(b1, Instr.Ret(o)))
    case Evaluate(e) => GenExpr(u, e, b).1
    case If(cond, body) => GenIf(u, cond, body, b)
    case While(cond, body) => GenWhile(u, cond, body, b)
  }

  function GenIf(u: Unit, cond: Expr, body: seq<Stmt>, b: Fn): (b': Fn)
    requires Inserting(b)
    ensures Extends(b, b') && Inserting(b')
    decreases body, 2
  {
    var (o, b1) := GenExpr(u, cond, b);
    GenIfRest(u, o, body, b1)
  }

  /** After the condition: the continuation block, the body block, and the branch between them. */
  function GenIfRest(u: Unit, o: Operand, body: seq<Stmt>, b: Fn): (b': Fn)
    requires Inserting(b)
    ensures Extends(b, b') && Inserting(b')
    decreases body, 1
  {
    var cont := |b.blocks|;
    var b1 := GenBranch(o, cont + 1, cont, false, AddBlock(AddBlock(b)));
    var b2 := GenBody(u, body, SetInsert(b1, cont + 1));
    SetInsert(Emit(b2, Br(cont)), cont)
  }

  /** Blocks `head`, `head + 1` and `head + 2` are the loop's header, continuation and body. */
  function GenWhile(u: Unit, cond: Expr, body: seq<Stmt>, b: Fn): (b': Fn)
    requires Inserting(b)
    ensures Extends(b, b') && Inserting(b')
    decreases body, 2
  {
    GenLoop(u, cond, body, |b.blocks|, GenLoopEntry(b))
  }

  function GenLoopEntry(b: Fn): (b': Fn)
    requires Inserting(b)
    ensures Extends(b, b') && Inserting(b') && |b'.blocks| == |b.blocks| + 3
  {
    SetInsert(Emit(AddBlock(AddBlock(AddBlock(b))), Br(|b.blocks|)), |b.blocks|)
  }

  function GenLoop(u: Unit, cond: Expr, body: seq<Stmt>, head: nat, b: Fn): (b': Fn)
    requires Inserting(b) && head + 3 <= |b.blocks|
    ensures Extends(b, b') && Inserting(b')
    decreases body, 1
  {
    var (o, b1) := GenExpr(u, cond, b);
    var b2 := GenBranch(o, head + 2, head + 1, true, b1);
    var b3 := GenBody(u, body, SetInsert(b2, head + 2));
    SetInsert(Emit(b3, Br(head)), head + 1)
  }

  function GenAssign(u: Unit, x: string, e: Expr, b: Fn): (b': Fn)
    requires Inserting(b)
    ensures Extends(b, b') && Inserting(b')
    decreases e, 1
  {
    var (o, b1) := GenExpr(u, e, b);
    Emit(b1, StoreVar(StoreAddr(u, x), o))
  }

  /** The truth test of a condition: shift the tag away and compare with zero. */
  function GenBranch(o: Operand, taken: nat, skipped: nat, loop: bool, b: Fn): (b': Fn)
    requires Inserting(b)
    ensures Extends(b, b') && Inserting(b') && |b'.blocks| == |b.blocks|
  {
    var b1 := Define(b, LShr(b.next, o));
    var b2 := Define(b1, IsNotNull(b1.next, Reg(b.next)));
    Emit(b2, CondBr(Reg(b1.next), taken, skipped, loop))
  }
}
