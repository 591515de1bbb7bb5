/**
 The compiler as it runs: an IR builder whose blocks grow and whose insertion
 point moves while the tree is compiled. Each method leaves the builder as the
 functions of module CodeGen say.
 */
module CodeBuilder {
  import opened Tagged
  import opened Ast
  import opened Runtime
  import opened Guarded
  import opened Frames
  import opened Ir
  import opened CodeGen
  import opened Deopt

  class Builder {
    var blocks: seq<Block>
    var insertBlock: Option<nat>
    var registers: nat

    /** A function with its entry block, ready for the body. */
    constructor (a: Activation)
      ensures Function() == EntryFn(a)
    {
      blocks, insertBlock, registers := [EntryBlock(a)], Some(0), |a.decl.params| + 3;
    }

    function Function(): Fn
      reads this
    {
      Fn(blocks, insertBlock, registers)
    }

    predicate CanInsert()
      reads this
    {
      Inserting(Function())
    }

    /* ---- Builder primitives ---- */

    method CreateBlock() returns (k: nat)
      modifies this`blocks
      ensures k == |old(blocks)| && Function() == AddBlock(old(Function()))
    {
      k := |blocks|;
      blocks := blocks + [[]];
    }

    method SetInsertPoint(k: nat)
      modifies this`insertBlock
      ensures Function() == SetInsert(old(Function()), k)
    {
      insertBlock := Some(k);
    }

    method ClearInsertionPoint()
      modifies this`insertBlock
      ensures Function() == ClearInsert(old(Function()))
    {
      insertBlock := None;
    }

    method Insert(i: Instr)
      modifies this`blocks
      ensures Function() == Emit(old(Function()), i)
    {
      if CanInsert() {
        var k := insertBlock.value;
        blocks := blocks[k := blocks[k] + [i]];
      }
    }

    method InsertDefining(i: Instr) returns (o: Operand)
      modifies this`blocks, this`registers
      ensures o == Reg(old(registers)) && Function() == Define(old(Function()), i)
    {
      o := Reg(registers);
      registers := registers + 1;
      Insert(i);
    }

    /* ---- Expressions ---- */

    method CompileExpression(u: Unit, e: Expr) returns (o: Operand)
      requires CanInsert()
      modifies this
      ensures (o, Function()) == GenExpr(u, e, old(Function()))
      decreases e, 0
    {
      match e {
        case Number(n) => o := Imm(Encode(n));
        case VarRef(x) => o := InsertDefining(LoadVar(registers, Resolve(u.symbols, x)));
        case Binary(op, l, r) =>
          var lo := CompileExpression(u, l);
          var ro := CompileExpression(u, r);
          o := CompileBinOp(op, lo, ro);
        case MethodCall(site, callee, sel, args) =>
          var obj := CompileExpression(u, callee);
          var os := CompileArguments(u, args);
          o := CompileGuardedCall(u, site, sel, obj, os);
        case ClosureCall(callee, args) =>
          var f := CompileExpression(u, callee);
          var os := CompileArguments(u, args);
          o := InsertDefining(CallClosurePtr(registers, f, os));
          Insert(SetCurrent);
        case NewObject(cls) => o := InsertDefining(New(registers, cls));
        case ClosureLiteral(c) =>
          var captured := CapturedAddresses(u.symbols, c.boundVars);
          o := InsertDefining(MakeClosure(registers, c, captured));
          Insert(StoreVar(StoreAddr(u, c.name), o));
      }
    }

    /** The loop over the bound variables of a literal. */
    static method CapturedAddresses(symbols: Table, names: seq<string>) returns (addrs: seq<Addr>)
      ensures |addrs| == |names| && forall i | 0 <= i < |names| :: addrs[i] == Resolve(symbols, names[i])
      ensures addrs == AddressesOf(symbols, names)
    {
      addrs := [];
      var i := 0;
      while i < |names|
        invariant 0 <= i <= |names| && |addrs| == i
        invariant forall j | 0 <= j < i :: addrs[j] == Resolve(symbols, names[j])
      {
        addrs := addrs + [Resolve(symbols, names[i])];
        i := i + 1;
      }
    }

    method CompileArguments(u: Unit, args: seq<Expr>) returns (os: seq<Operand>)
      requires CanInsert()
      modifies this
      ensures (os, Function()) == GenArgs(u, args, old(Function()))
      decreases args, 0
    {
      os := [];
      var i := 0;
      assert args[0..] == args && forall rest: seq<Operand> :: [] + rest == rest;
      while i < |args|
        invariant 0 <= i <= |args| && CanInsert()
        invariant GenArgs(u, args, old(Function()))
                  == (os + GenArgs(u, args[i..], Function()).0, GenArgs(u, args[i..], Function()).1)
      {
        ghost var before := Function();
        var o := CompileExpression(u, args[i]);
        assert args[i..][1..] == args[i + 1..];
        ghost var rest := GenArgs(u, args[i + 1..], Function());
        assert GenArgs(u, args[i..], before) == ([o] + rest.0, rest.1);
        assert os + ([o] + rest.0) == (os + [o]) + rest.0;
        os := os + [o];
        i := i + 1;
      }
      assert os + [] == os;
    }

    method CompileBinOp(op: BinOp, l: Operand, r: Operand) returns (o: Operand)
      requires CanInsert()
      modifies this
      ensures (o, Function()) == GenOp(op, l, r, old(Function()))
    {
      match op {
        case Comparison(c) =>
          var bit := InsertDefining(ICmp(registers, c, l, r));
          o := InsertDefining(BoxInt(registers, bit));
        case Arithmetic(a) =>
          o := InsertDefining(CallHelper(registers, a, l, r));
      }
    }

    /** The null test, the class test, the side exit and the call through the cached slot. */
    method CompileGuardedCall(u: Unit, site: nat, sel: string, obj: Operand, args: seq<Operand>)
      returns (o: Operand)
      requires CanInsert()
      modifies this
      ensures (o, Function()) == GenGuarded(u, site, sel, obj, args, old(Function()))
    {
      var b := GuardOf(u.guards, site);
      var hit, miss, notNull := CompileNullTest(obj);
      SetInsertPoint(notNull);
      CompileClassTest(b.assumed, obj, hit, miss);
      SetInsertPoint(miss);
      CompileSideExit(u, site);
      SetInsertPoint(hit);
      o := CompileCachedCall(b.cached, site, sel, obj, args);
    }

    method CompileSideExit(u: Unit, site: nat)
      requires CanInsert()
      modifies this
      ensures Function() == GenMiss(u, site, old(Function()))
    {
      var v := InsertDefining(Patchpoint(registers, site, u.frame));
      Insert(Instr.Ret(v));
    }

    method CompileCachedCall(cached: nat, site: nat, sel: string, obj: Operand, args: seq<Operand>)
      returns (o: Operand)
      requires CanInsert()
      modifies this
      ensures (o, Function()) == GenHit(cached, site, sel, obj, args, old(Function()))
    {
      Insert(ResetCounter(site));
      o := InsertDefining(CallSlot(registers, cached, obj, sel, args));
      Insert(SetCurrent);
    }

    method CompileNullTest(obj: Operand) returns (hit: nat, miss: nat, notNull: nat)
      requires CanInsert()
      modifies this
      ensures Function() == GenNullTest(obj, old(Function()))
      ensures hit == |old(blocks)| && miss == hit + 1 && notNull == hit + 2
    {
      hit := CreateBlock();
      miss := CreateBlock();
      var test := InsertDefining(IsNotNull(registers, obj));
      notNull := CreateBlock();
      Insert(CondBr(test, notNull, miss, false));
    }

    method CompileClassTest(assumed: Word, obj: Operand, hit: nat, miss: nat)
      requires CanInsert() && miss == hit + 1
      modifies this
      ensures Function() == GenClassTest(assumed, obj, hit, old(Function()))
    {
      if assumed == SMALL_INT_CLASS {
        var tag := InsertDefining(AndTag(registers, obj));
        Insert(CondBr(tag, hit, miss, false));
      } else {
        var cls := InsertDefining(LoadClass(registers, obj));
        var same := InsertDefining(IsClass(registers, cls, assumed));
        Insert(CondBr(same, hit, miss, false));
      }
    }

    /* ---- Statements ---- */

    /** The statement loop: what follows a `return` is dead and is not compiled. */
    method CompileBody(u: Unit, ss: seq<Stmt>)
      requires insertBlock.Some? ==> CanInsert()
      modifies this
      ensures Function() == GenBody(u, ss, old(Function()))
      decreases ss, 0
    {
      var i := 0;
      while i < |ss|
        invariant 0 <= i <= |ss|
        invariant insertBlock.Some? ==> CanInsert()
        invariant GenBody(u, ss, old(Function())) == GenBody(u, ss[i..], Function())
      {
        if insertBlock.None? {
          return;
        }
        CompileStmt(u, ss[i]);
        assert ss[i..][1..] == ss[i + 1..];
        i := i + 1;
      }
    }

    method CompileStmt(u: Unit, s: Stmt)
      requires CanInsert()
      modifies this
      ensures Function() == GenStmt(u, s, old(Function()))
      decreases s, 1
    {
      match s {
        case Decl(_, None) =>
        case Decl(x, Some(e)) => CompileAssign(u, x, e);
        case Assign(x, e) => CompileAssign(u, x, e);
        case Return(e) =>
          var o := CompileExpression(u, e);
          Insert(Instr.Ret(o));
          ClearInsertionPoint();
        case Evaluate(e) =>
          var o := CompileExpression(u, e);
        case If(cond, body) => CompileIf(u, cond, body);
        case While(cond, body) => CompileWhile(u, cond, body);
      }
    }

    method CompileAssign(u: Unit, x: string, e: Expr)
      requires CanInsert()
      modifies this
      ensures Function() == GenAssign(u, x, e, old(Function()))
    {
      var o := CompileExpression(u, e);
      Insert(StoreVar(StoreAddr(u, x), o));
    }

    /** Shift, test for zero, branch. */
    method CompileBranch(o: Operand, taken: nat, skipped: nat, loop: bool)
      requires CanInsert()
      modifies this
      ensures Function() == GenBranch(o, taken, skipped, loop, old(Function()))
    {
      var shifted := InsertDefining(LShr(registers, o));
      var test := InsertDefining(IsNotNull(registers, shifted));
      Insert(CondBr(test, taken, skipped, loop));
    }

    method CompileIf(u: Unit, cond: Expr, body: seq<Stmt>)
      requires CanInsert()
      modifies this
      ensures Function() == GenIf(u, cond, body, old(Function()))
      decreases body, 3
    {
      var o := CompileExpression(u, cond);
      CompileIfBody(u, o, body);
    }

    /** The continuation block and the body block, the branch between them, and the body. */
    method CompileIfBody(u: Unit, o: Operand, body: seq<Stmt>)
      requires CanInsert()
      modifies this
      ensures Function() == GenIfRest(u, o, body, old(Function()))
      decreases body, 2
    {
      var cont := CreateBlock();
      var ifBody := CreateBlock();
      CompileBranch(o, ifBody, cont, false);
      CompileArm(u, body, ifBody, cont);
    }

    /** A body in a block of its own, which goes on at `cont` if its end is reached. */
    method CompileArm(u: Unit, body: seq<Stmt>, arm: nat, cont: nat)
      requires arm < |blocks|
      modifies this
      ensures Function() == SetInsert(Emit(GenBody(u, body, SetInsert(old(Function()), arm)), Br(cont)), cont)
      decreases body, 1
    {
      SetInsertPoint(arm);
      CompileBody(u, body);
      if insertBlock.Some? {
        Insert(Br(cont));
      }
      SetInsertPoint(cont);
    }

    method CompileWhile(u: Unit, cond: Expr, body: seq<Stmt>)
      requires CanInsert()
      modifies this
      ensures Function() == GenWhile(u, cond, body, old(Function()))
      decreases body, 2
    {
      var condBlock, cont, whileBody := CompileLoopEntry();
      CompileLoop(u, cond, body, condBlock, cont, whileBody);
    }

    method CompileLoopEntry() returns (condBlock: nat, cont: nat, whileBody: nat)
      requires CanInsert()
      modifies this
      ensures Function() == GenLoopEntry(old(Function()))
      ensures condBlock == |old(blocks)| && cont == condBlock + 1 && whileBody == condBlock + 2
    {
      condBlock := CreateBlock();
      cont := CreateBlock();
      whileBody := CreateBlock();
      Insert(Br(condBlock));
      SetInsertPoint(condBlock);
    }

    method CompileLoop(u: Unit, cond: Expr, body: seq<Stmt>, condBlock: nat, cont: nat, whileBody: nat)
      requires CanInsert() && condBlock + 3 <= |blocks| && cont == condBlock + 1 && whileBody == condBlock + 2
      modifies this
      ensures Function() == GenLoop(u, cond, body, condBlock, old(Function()))
      decreases body, 1
    {
      var o := CompileExpression(u, cond);
      CompileBranch(o, whileBody, cont, true);
      SetInsertPoint(whileBody);
      CompileBody(u, body);
      Insert(Br(condBlock));
      SetInsertPoint(cont);
    }

    /** A whole function: the body, and a null return if the insertion point is still there. */
    method CompileFunction(a: Activation, guards: Guards)
      requires Function() == EntryFn(a)
      modifies this
      ensures Function() == GenFunction(a, guards)
    {
      CompileBody(UnitOf(a, guards), a.decl.body);
      if insertBlock.Some? {
        Insert(Instr.Ret(Imm(0)));
      }
      ClearInsertionPoint();
    }
  }
}
