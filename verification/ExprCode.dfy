/** Running the code generated for an expression gives the outcome of the compiled run. */
module ExprCode {
  import opened Tagged
  import opened Ast
  import opened Runtime
  import opened Interpreter
  import opened Guarded
  import opened CompiledRun
  import opened Ir
  import opened CodeGen

  /** The machine standing at the insertion point of `b`. */
  function Here(b: Fn, regs: Regs, st: State, gas: nat): Config
    requires Inserting(b)
  {
    Running(Live(b.cur.value, |b.blocks[b.cur.value]|, regs, st, gas))
  }

  ghost predicate Kept(regs: Regs, regs': Regs, n: nat) {
    forall r | r in regs && r < n :: r in regs' && regs'[r] == regs[r]
  }

  predicate Valid(o: Operand, regs: Regs, n: nat) {
    o.Reg? ==> o.r < n && o.r in regs
  }

  predicate AllValid(os: seq<Operand>, regs: Regs, n: nat) {
    forall o | o in os :: Valid(o, regs, n)
  }

  lemma {:induction false} ValuesKept(os: seq<Operand>, regs: Regs, regs': Regs, n: nat)
    requires AllValid(os, regs, n) && Kept(regs, regs', n)
    ensures ValuesOf(regs', os) == ValuesOf(regs, os)
    decreases os
  {
    if os != [] {
      assert Valid(os[0], regs, n);
      assert AllValid(os[1..], regs, n);
      ValuesKept(os[1..], regs, regs', n);
    }
  }

  /** From the insertion point, the machine runs the instruction emitted there. */
  lemma RunEmitted(w: World, code: seq<Block>, start: Config, b: Fn, i: Instr, regs: Regs, st: State, gas: nat)
    requires Inserting(b) && Covers(code, Emit(b, i))
    requires Reaches(w, code, start, Here(b, regs, st, gas))
    ensures Reaches(w, code, start, RunInstr(w, i, Here(b, regs, st, gas).live))
  {
    var k := b.cur.value;
    var b' := Emit(b, i);
    assert b'.blocks[k] <= code[k];
    assert b'.blocks[k][|b.blocks[k]|] == i;
    ReachesStep(w, code, start, Here(b, regs, st, gas));
  }

  /** An instruction that defines the next register with `v` moves the insertion point past itself. */
  lemma RunDefined(
    w: World, code: seq<Block>, start: Config, b: Fn, i: Instr, regs: Regs, st: State, gas: nat, v: Word, st': State)
    requires Inserting(b) && Covers(code, Define(b, i))
    requires Reaches(w, code, start, Here(b, regs, st, gas))
    requires RunInstr(w, i, Here(b, regs, st, gas).live) == SetReg(Here(b, regs, st, gas).live, b.next, v, st')
    ensures Reaches(w, code, start, Here(Define(b, i), regs[b.next := v], st', gas))
    ensures Kept(regs, regs[b.next := v], b.next)
  {
    RunEmitted(w, code, start, b.(next := b.next + 1), i, regs, st, gas);
  }

  /** A value computed, a test of it, and the branch on the test. */
  lemma RunTest(
    w: World, code: seq<Block>, start: Config, b: Fn, i: Instr, i1: Instr, branch: Instr,
    regs: Regs, st: State, gas: nat, v: Word, v1: Word)
    requires Inserting(b) && Covers(code, Emit(Define(Define(b, i), i1), branch))
    requires Reaches(w, code, start, Here(b, regs, st, gas))
    requires RunInstr(w, i, Here(b, regs, st, gas).live) == SetReg(Here(b, regs, st, gas).live, b.next, v, st)
    requires var live := Here(Define(b, i), regs[b.next := v], st, gas).live;
             RunInstr(w, i1, live) == SetReg(live, b.next + 1, v1, st)
    ensures var live := Here(Define(Define(b, i), i1), regs[b.next := v][b.next + 1 := v1], st, gas).live;
            Reaches(w, code, start, RunInstr(w, branch, live))
  {
    var b1 := Define(b, i);
    var b2 := Define(b1, i1);
    CoversEarlier(code, b2, Emit(b2, branch));
    CoversEarlier(code, b1, b2);
    RunDefined(w, code, start, b, i, regs, st, gas, v, st);
    RunDefined(w, code, start, b1, i1, regs[b.next := v], st, gas, v1, st);
    RunEmitted(w, code, start, b2, branch, regs[b.next := v][b1.next := v1], st, gas);
  }

  /** What running the code of an expression must achieve; `n` is the first register the code may use. */
  ghost predicate Simulates(
    w: World, code: seq<Block>, u: Unit, start: Config, n: nat, regs: Regs, gas: nat,
    g: (Operand, Fn), o: ExprOutcome, regs': Regs)
    requires Inserting(g.1)
  {
    match o
    case Value(v, st) =>
      && Reaches(w, code, start, Here(g.1, regs', st, gas))
      && Kept(regs, regs', n)
      && Valid(g.0, regs', g.1.next)
      && ValueOf(regs', g.0) == v
    case Miss(id, st) => Reaches(w, code, start, Exited(id, u.frame, st, gas))
    case ExprFault => Reaches(w, code, start, Trap)
    case ExprParted => Reaches(w, code, start, Wild)
  }

  ghost predicate SimulatesArgs(
    w: World, code: seq<Block>, u: Unit, start: Config, n: nat, regs: Regs, gas: nat,
    g: (seq<Operand>, Fn), o: ArgsOutcome, regs': Regs)
    requires Inserting(g.1)
  {
    match o
    case Values(vs, st) =>
      && Reaches(w, code, start, Here(g.1, regs', st, gas))
      && Kept(regs, regs', n)
      && AllValid(g.0, regs', g.1.next)
      && ValuesOf(regs', g.0) == vs
    case ArgsMiss(id, st) => Reaches(w, code, start, Exited(id, u.frame, st, gas))
    case ArgsFaulted => Reaches(w, code, start, Trap)
    case ArgsParted => Reaches(w, code, start, Wild)
  }

  /** What is simulated with `regs1` at hand is simulated from where those registers were computed. */
  lemma SimulatesFrom(
    w: World, code: seq<Block>, u: Unit, start: Config, n: nat, n1: nat, regs: Regs, regs1: Regs, gas: nat,
    g: (Operand, Fn), o: ExprOutcome, regs': Regs)
    requires Inserting(g.1) && n <= n1 && Kept(regs, regs1, n)
    requires Simulates(w, code, u, start, n1, regs1, gas, g, o, regs')
    ensures Simulates(w, code, u, start, n, regs, gas, g, o, regs')
  {
  }

  /* ---- Operators ---- */

  lemma SimulateOp(
    w: World, code: seq<Block>, u: Unit, start: Config, op: BinOp, l: Operand, r: Operand, b: Fn,
    regs: Regs, st: State, gas: nat) returns (regs': Regs)
    requires Inserting(b) && Covers(code, GenOp(op, l, r, b).1)
    requires Reaches(w, code, start, Here(b, regs, st, gas))
    ensures Simulates(w, code, u, start, b.next, regs, gas, GenOp(op, l, r, b),
                      JitOp(w, op, ValueOf(regs, l), ValueOf(regs, r), st), regs')
  {
    match op
    case Comparison(c) => regs' := SimulateComparison(w, code, u, start, c, l, r, b, regs, st, gas);
    case Arithmetic(a) => regs' := SimulateHelper(w, code, u, start, a, l, r, b, regs, st, gas);
  }

  lemma SimulateComparison(
    w: World, code: seq<Block>, u: Unit, start: Config, c: CmpOp, l: Operand, r: Operand, b: Fn,
    regs: Regs, st: State, gas: nat) returns (regs': Regs)
    requires Inserting(b) && Covers(code, GenOp(Comparison(c), l, r, b).1)
    requires Reaches(w, code, start, Here(b, regs, st, gas))
    ensures Simulates(w, code, u, start, b.next, regs, gas, GenOp(Comparison(c), l, r, b),
                      JitOp(w, Comparison(c), ValueOf(regs, l), ValueOf(regs, r), st), regs')
  {
    var v: Word := if WordCompare(c, ValueOf(regs, l), ValueOf(regs, r)) then 1 else 0;
    var i := ICmp(b.next, c, l, r);
    var b1 := Define(b, i);
    CoversEarlier(code, b1, GenOp(Comparison(c), l, r, b).1);
    RunDefined(w, code, start, b, i, regs, st, gas, v, st);
    var regs1 := regs[b.next := v];
    RunDefined(w, code, start, b1, BoxInt(b1.next, Reg(b.next)), regs1, st, gas, Encode(v), st);
    regs' := regs1[b1.next := Encode(v)];
  }

  lemma SimulateHelper(
    w: World, code: seq<Block>, u: Unit, start: Config, a: ArithOp, l: Operand, r: Operand, b: Fn,
    regs: Regs, st: State, gas: nat) returns (regs': Regs)
    requires Inserting(b) && Covers(code, GenOp(Arithmetic(a), l, r, b).1)
    requires Reaches(w, code, start, Here(b, regs, st, gas))
    ensures Simulates(w, code, u, start, b.next, regs, gas, GenOp(Arithmetic(a), l, r, b),
                      JitOp(w, Arithmetic(a), ValueOf(regs, l), ValueOf(regs, r), st), regs')
  {
    var i := CallHelper(b.next, a, l, r);
    RunEmitted(w, code, start, b.(next := b.next + 1), i, regs, st, gas);
    var q := RunHelper(w, a, ValueOf(regs, l), ValueOf(regs, r), st);
    if q.Ret? {
      RunDefined(w, code, start, b, i, regs, st, gas, q.value, q.st);
      regs' := regs[b.next := q.value];
    } else {
      regs' := regs;
    }
  }

  /* ---- Guarded calls ---- */

  function StartOf(block: nat, regs: Regs, st: State, gas: nat): Config {
    Running(Live(block, 0, regs, st, gas))
  }

  lemma SimulateNullTest(
    w: World, code: seq<Block>, start: Config, obj: Operand, b: Fn, regs: Regs, st: State, gas: nat)
    returns (regs': Regs)
    requires Inserting(b) && Covers(code, GenNullTest(obj, b)) && Valid(obj, regs, b.next)
    requires Reaches(w, code, start, Here(b, regs, st, gas))
    ensures var hit := |b.blocks|;
            && Reaches(w, code, start, StartOf(if ValueOf(regs, obj) == 0 then hit + 1 else hit + 2, regs', st, gas))
            && Kept(regs, regs', b.next)
  {
    var hit := |b.blocks|;
    var b0 := AddBlock(AddBlock(b));
    var v: Word := if ValueOf(regs, obj) != 0 then 1 else 0;
    var b1 := Define(b0, IsNotNull(b.next, obj));
    CoversEarlier(code, b1, GenNullTest(obj, b));
    RunDefined(w, code, start, b0, IsNotNull(b.next, obj), regs, st, gas, v, st);
    regs' := regs[b.next := v];
    assert Here(AddBlock(b1), regs', st, gas) == Here(b1, regs', st, gas);
    RunEmitted(w, code, start, AddBlock(b1), CondBr(Reg(b.next), hit + 2, hit + 1, false), regs', st, gas);
  }

  lemma SimulateIntTest(
    w: World, code: seq<Block>, start: Config, obj: Operand, hit: nat, b: Fn, regs: Regs, st: State, gas: nat)
    returns (regs': Regs)
    requires Inserting(b) && Covers(code, GenClassTest(SMALL_INT_CLASS, obj, hit, b))
    requires Reaches(w, code, start, Here(b, regs, st, gas))
    ensures Reaches(w, code, start, StartOf(if Tag(ValueOf(regs, obj)) != 0 then hit else hit + 1, regs', st, gas))
    ensures Kept(regs, regs', b.next)
  {
    var tag := Tag(ValueOf(regs, obj));
    var i := AndTag(b.next, obj);
    var b1 := Define(b, i);
    CoversEarlier(code, b1, Emit(b1, CondBr(Reg(b.next), hit, hit + 1, false)));
    RunDefined(w, code, start, b, i, regs, st, gas, tag, st);
    regs' := regs[b.next := tag];
    RunEmitted(w, code, start, b1, CondBr(Reg(b.next), hit, hit + 1, false), regs', st, gas);
  }

  lemma SimulateObjectTest(
    w: World, code: seq<Block>, start: Config, assumed: Word, obj: Operand, hit: nat, b: Fn,
    regs: Regs, st: State, gas: nat) returns (regs': Regs)
    requires Inserting(b) && assumed != SMALL_INT_CLASS && Covers(code, GenClassTest(assumed, obj, hit, b))
    requires Reaches(w, code, start, Here(b, regs, st, gas))
    requires ValueOf(regs, obj) in st.heap && st.heap[ValueOf(regs, obj)] != []
    ensures var same := st.heap[ValueOf(regs, obj)][0] == assumed;
            Reaches(w, code, start, StartOf(if same then hit else hit + 1, regs', st, gas))
    ensures Kept(regs, regs', b.next)
  {
    var cls := st.heap[ValueOf(regs, obj)][0];
    var same: Word := if cls == assumed then 1 else 0;
    var i := LoadClass(b.next, obj);
    var b1 := Define(b, i);
    var i1 := IsClass(b1.next, Reg(b.next), assumed);
    var b2 := Define(b1, i1);
    var branch := CondBr(Reg(b1.next), hit, hit + 1, false);
    assert GenClassTest(assumed, obj, hit, b) == Emit(b2, branch);
    regs' := regs[b.next := cls][b1.next := same];
    RunTest(w, code, start, b, i, i1, branch, regs, st, gas, cls, same);
  }

  lemma SimulateClassTest(
    w: World, code: seq<Block>, start: Config, g: Baked, obj: Operand, hit: nat, b: Fn,
    regs: Regs, st: State, gas: nat) returns (regs': Regs)
    requires Inserting(b) && Covers(code, GenClassTest(g.assumed, obj, hit, b))
    requires Reaches(w, code, start, Here(b, regs, st, gas))
    requires ValueOf(regs, obj) != 0 && !TestGuard(g, st.heap, ValueOf(regs, obj)).Undefined?
    ensures var hits := TestGuard(g, st.heap, ValueOf(regs, obj)).Hit?;
            Reaches(w, code, start, StartOf(if hits then hit else hit + 1, regs', st, gas))
    ensures Kept(regs, regs', b.next)
  {
    if g.assumed == SMALL_INT_CLASS {
      regs' := SimulateIntTest(w, code, start, obj, hit, b, regs, st, gas);
    } else {
      regs' := SimulateObjectTest(w, code, start, g.assumed, obj, hit, b, regs, st, gas);
    }
  }

  lemma SimulateHit(
    w: World, code: seq<Block>, u: Unit, start: Config, cached: nat, site: nat, sel: string, obj: Operand,
    args: seq<Operand>, b: Fn, regs: Regs, st: State, gas: nat) returns (regs': Regs)
    requires Inserting(b) && Covers(code, GenHit(cached, site, sel, obj, args, b).1)
    requires Reaches(w, code, start, Here(b, regs, st, gas))
    ensures var st1 := SetSite(st, site, SiteOf(st, site).(alternativeCount := 0));
            Simulates(w, code, u, start, b.next, regs, gas, GenHit(cached, site, sel, obj, args, b),
                      if cached == 0 then ExprFault
                      else FromEval(FromCall(w.invoke(cached, st1, ValueOf(regs, obj), sel, ValuesOf(regs, args)))),
                      regs')
  {
    var st1 := SetSite(st, site, SiteOf(st, site).(alternativeCount := 0));
    var b1 := Emit(b, ResetCounter(site));
    var i := CallSlot(b1.next, cached, obj, sel, args);
    var b2 := Define(b1, i);
    CoversEarlier(code, b2, GenHit(cached, site, sel, obj, args, b).1);
    CoversEarlier(code, b1, b2);
    RunEmitted(w, code, start, b, ResetCounter(site), regs, st, gas);
    RunEmitted(w, code, start, b1.(next := b1.next + 1), i, regs, st1, gas);
    var q := w.invoke(cached, st1, ValueOf(regs, obj), sel, ValuesOf(regs, args));
    regs' := regs;
    if cached != 0 && q.Ret? {
      RunDefined(w, code, start, b1, i, regs, st1, gas, q.value, q.st);
      regs' := regs[b1.next := q.value];
      RunEmitted(w, code, start, b2, SetCurrent, regs', q.st, gas);
    }
  }

  lemma SimulateMiss(
    w: World, code: seq<Block>, u: Unit, start: Config, site: nat, b: Fn, regs: Regs, st: State, gas: nat)
    requires Inserting(b) && Covers(code, GenMiss(u, site, b))
    requires Reaches(w, code, start, Here(b, regs, st, gas))
    ensures Reaches(w, code, start, Exited(site, u.frame, st, gas))
  {
    var i := Patchpoint(b.next, site, u.frame);
    CoversEarlier(code, Define(b, i), GenMiss(u, site, b));
    RunEmitted(w, code, start, b.(next := b.next + 1), i, regs, st, gas);
  }

  lemma NullTestBlocks(obj: Operand, b: Fn)
    requires Inserting(b)
    ensures var b' := GenNullTest(obj, b);
            b'.blocks[|b.blocks|] == b'.blocks[|b.blocks| + 1] == b'.blocks[|b.blocks| + 2] == []
  {
  }

  lemma ClassTestBlocks(assumed: Word, obj: Operand, hit: nat, b: Fn)
    requires Inserting(b)
    ensures var b' := GenClassTest(assumed, obj, hit, b);
            forall k | 0 <= k < |b.blocks| && k != b.cur.value :: b'.blocks[k] == b.blocks[k]
  {
  }

  lemma MissBlocks(u: Unit, site: nat, b: Fn)
    requires Inserting(b)
    ensures var b' := GenMiss(u, site, b);
            forall k | 0 <= k < |b.blocks| && k != b.cur.value :: b'.blocks[k] == b.blocks[k]
  {
  }

  /** The hit and miss blocks are still empty when they are filled, and every stage is part of the code. */
  lemma GuardStages(
    code: seq<Block>, u: Unit, site: nat, sel: string, obj: Operand, args: seq<Operand>, hit: nat, c1: Fn)
    requires |c1.blocks| > hit + 2 && c1.cur == Some(hit + 2)
    requires c1.blocks[hit] == c1.blocks[hit + 1] == []
    requires Covers(code, GenDecided(u, site, sel, obj, args, hit, c1).1)
    ensures var c2 := SetInsert(GenClassTest(GuardOf(u.guards, site).assumed, obj, hit, c1), hit + 1);
            var c3 := SetInsert(GenMiss(u, site, c2), hit);
            && Covers(code, c2) && Covers(code, c3)
            && c2.blocks[hit + 1] == [] && c3.blocks[hit] == []
            && c1.next <= c2.next <= c3.next
  {
    var c2 := SetInsert(GenClassTest(GuardOf(u.guards, site).assumed, obj, hit, c1), hit + 1);
    ClassTestBlocks(GuardOf(u.guards, site).assumed, obj, hit, c1);
    MissBlocks(u, site, c2);
    var c3 := SetInsert(GenMiss(u, site, c2), hit);
    CoversEarlier(code, c3, GenHit(GuardOf(u.guards, site).cached, site, sel, obj, args, c3).1);
    CoversEarlier(code, c2, GenMiss(u, site, c2));
  }

  /** The guard as a whole: control arrives at the hit block or at the miss block as the guard decides. */
  lemma SimulateDecision(
    w: World, code: seq<Block>, start: Config, g: Baked, obj: Operand, b: Fn, regs: Regs, st: State, gas: nat)
    returns (regs': Regs)
    requires Inserting(b) && Valid(obj, regs, b.next)
    requires var b1 := GenNullTest(obj, b);
             Covers(code, GenClassTest(g.assumed, obj, |b.blocks|, SetInsert(b1, |b.blocks| + 2)))
    requires Reaches(w, code, start, Here(b, regs, st, gas))
    requires !TestGuard(g, st.heap, ValueOf(regs, obj)).Undefined?
    ensures var hits := TestGuard(g, st.heap, ValueOf(regs, obj)).Hit?;
            Reaches(w, code, start, StartOf(|b.blocks| + (if hits then 0 else 1), regs', st, gas))
    ensures Kept(regs, regs', b.next)
  {
    var c1 := SetInsert(GenNullTest(obj, b), |b.blocks| + 2);
    CoversEarlier(code, c1, GenClassTest(g.assumed, obj, |b.blocks|, c1));
    NullTestBlocks(obj, b);
    regs' := SimulateNullTest(w, code, start, obj, b, regs, st, gas);
    if ValueOf(regs, obj) != 0 {
      var regs1 := regs';
      regs' := SimulateClassTest(w, code, start, g, obj, |b.blocks|, c1, regs1, st, gas);
    }
  }

  lemma SimulateGuarded(
    w: World, code: seq<Block>, u: Unit, start: Config, site: nat, sel: string, obj: Operand,
    args: seq<Operand>, b: Fn, regs: Regs, st: State, gas: nat, o: ExprOutcome) returns (regs': Regs)
    requires Inserting(b) && Covers(code, GenGuarded(u, site, sel, obj, args, b).1)
    requires Valid(obj, regs, b.next) && AllValid(args, regs, b.next)
    requires Reaches(w, code, start, Here(b, regs, st, gas))
    requires o == JitGuarded(w, u.guards, site, sel, ValueOf(regs, obj), ValuesOf(regs, args), st)
    ensures Simulates(w, code, u, start, b.next, regs, gas, GenGuarded(u, site, sel, obj, args, b), o, regs')
  {
    var first := SetInsert(GenNullTest(obj, b), |b.blocks| + 2);
    NullTestBlocks(obj, b);
    regs' := SimulateDecided(w, code, u, start, site, sel, obj, args, b, first, regs, st, gas, o);
  }

  /** Reading a class pointer where there is no object leaves all bounds. */
  lemma SimulateNoClass(
    w: World, code: seq<Block>, start: Config, g: Baked, obj: Operand, b: Fn, regs: Regs, st: State, gas: nat)
    requires Inserting(b) && Valid(obj, regs, b.next)
    requires var b1 := GenNullTest(obj, b);
             Covers(code, GenClassTest(g.assumed, obj, |b.blocks|, SetInsert(b1, |b.blocks| + 2)))
    requires Reaches(w, code, start, Here(b, regs, st, gas))
    requires TestGuard(g, st.heap, ValueOf(regs, obj)).Undefined?
    ensures Reaches(w, code, start, Wild)
  {
    var c1 := SetInsert(GenNullTest(obj, b), |b.blocks| + 2);
    CoversEarlier(code, c1, GenClassTest(g.assumed, obj, |b.blocks|, c1));
    NullTestBlocks(obj, b);
    var regs1 := SimulateNullTest(w, code, start, obj, b, regs, st, gas);
    LoadsNoClass(w, code, start, g.assumed, obj, |b.blocks|, c1, regs1, st, gas);
  }

  lemma LoadsNoClass(
    w: World, code: seq<Block>, start: Config, assumed: Word, obj: Operand, hit: nat, b: Fn,
    regs: Regs, st: State, gas: nat)
    requires Inserting(b) && assumed != SMALL_INT_CLASS && Covers(code, GenClassTest(assumed, obj, hit, b))
    requires Reaches(w, code, start, Here(b, regs, st, gas))
    requires ValueOf(regs, obj) !in st.heap || st.heap[ValueOf(regs, obj)] == []
    ensures Reaches(w, code, start, Wild)
  {
    var i := LoadClass(b.next, obj);
    var b1 := Define(b, i);
    var b2 := Define(b1, IsClass(b1.next, Reg(b.next), assumed));
    CoversEarlier(code, b2, Emit(b2, CondBr(Reg(b1.next), hit, hit + 1, false)));
    CoversEarlier(code, b1, b2);
    RunEmitted(w, code, start, b.(next := b.next + 1), i, regs, st, gas);
  }

  /** The guard, and what follows in the block that it chooses. */
  lemma SimulateDecided(
    w: World, code: seq<Block>, u: Unit, start: Config, site: nat, sel: string, obj: Operand,
    args: seq<Operand>, b: Fn, first: Fn, regs: Regs, st: State, gas: nat, o: ExprOutcome)
    returns (regs': Regs)
    requires Inserting(b) && first == SetInsert(GenNullTest(obj, b), |b.blocks| + 2)
    requires first.blocks[|b.blocks|] == first.blocks[|b.blocks| + 1] == [] && b.next <= first.next
    requires Covers(code, GenDecided(u, site, sel, obj, args, |b.blocks|, first).1)
    requires Valid(obj, regs, b.next) && AllValid(args, regs, b.next)
    requires Reaches(w, code, start, Here(b, regs, st, gas))
    requires o == JitGuarded(w, u.guards, site, sel, ValueOf(regs, obj), ValuesOf(regs, args), st)
    ensures Simulates(w, code, u, start, b.next, regs, gas,
                      GenDecided(u, site, sel, obj, args, |b.blocks|, first), o, regs')
  {
    var g := GuardOf(u.guards, site);
    GuardStages(code, u, site, sel, obj, args, |b.blocks|, first);
    if TestGuard(g, st.heap, ValueOf(regs, obj)).Undefined? {
      regs' := regs;
      SimulateNoClass(w, code, start, g, obj, b, regs, st, gas);
    } else {
      var regs1 := SimulateDecision(w, code, start, g, obj, b, regs, st, gas);
      regs' := SimulateChosen(w, code, u, start, site, sel, obj, args, |b.blocks|, b.next, first,
        regs, regs1, st, gas, o);
    }
  }

  /** With the decision made: the stages of the guard as the hit and the miss find them. */
  lemma SimulateChosen(
    w: World, code: seq<Block>, u: Unit, start: Config, site: nat, sel: string, obj: Operand,
    args: seq<Operand>, hit: nat, n: nat, first: Fn, regs: Regs, regs1: Regs, st: State, gas: nat, o: ExprOutcome)
    returns (regs': Regs)
    requires |first.blocks| > hit + 2 && first.cur == Some(hit + 2) && n <= first.next
    requires first.blocks[hit] == first.blocks[hit + 1] == []
    requires Covers(code, GenDecided(u, site, sel, obj, args, hit, first).1)
    requires Valid(obj, regs, n) && AllValid(args, regs, n) && Kept(regs, regs1, n)
    requires var t := TestGuard(GuardOf(u.guards, site), st.heap, ValueOf(regs, obj));
             !t.Undefined? && Reaches(w, code, start, StartOf(hit + (if t.Hit? then 0 else 1), regs1, st, gas))
    requires o == JitGuarded(w, u.guards, site, sel, ValueOf(regs, obj), ValuesOf(regs, args), st)
    ensures Simulates(w, code, u, start, n, regs, gas, GenDecided(u, site, sel, obj, args, hit, first), o, regs')
  {
    var g := GuardOf(u.guards, site);
    GuardStages(code, u, site, sel, obj, args, hit, first);
    var missing := SetInsert(GenClassTest(g.assumed, obj, hit, first), hit + 1);
    var hitting := SetInsert(GenMiss(u, site, missing), hit);
    regs' := SimulateArms(
      w, code, u, start, site, sel, obj, args, hit, n, regs, missing, hitting, regs1, st, gas, o);
  }

  /** From the block the guard chose: the call on a hit, the exit on a miss. */
  lemma SimulateArms(
    w: World, code: seq<Block>, u: Unit, start: Config, site: nat, sel: string, obj: Operand,
    args: seq<Operand>, hit: nat, n: nat, regs: Regs, missing: Fn, hitting: Fn, regs1: Regs,
    st: State, gas: nat, o: ExprOutcome) returns (regs': Regs)
    requires Inserting(missing) && missing.cur == Some(hit + 1) && missing.blocks[hit + 1] == []
    requires Inserting(hitting) && hitting.cur == Some(hit) && hitting.blocks[hit] == [] && n <= hitting.next
    requires Covers(code, GenMiss(u, site, missing))
    requires Covers(code, GenHit(GuardOf(u.guards, site).cached, site, sel, obj, args, hitting).1)
    requires Valid(obj, regs, n) && AllValid(args, regs, n) && Kept(regs, regs1, n)
    requires var g := GuardOf(u.guards, site);
             var hits := TestGuard(g, st.heap, ValueOf(regs, obj)).Hit?;
             !TestGuard(g, st.heap, ValueOf(regs, obj)).Undefined?
             && Reaches(w, code, start, StartOf(hit + (if hits then 0 else 1), regs1, st, gas))
    requires o == JitGuarded(w, u.guards, site, sel, ValueOf(regs, obj), ValuesOf(regs, args), st)
    ensures Simulates(w, code, u, start, n, regs, gas,
                      GenHit(GuardOf(u.guards, site).cached, site, sel, obj, args, hitting), o, regs')
  {
    var g := GuardOf(u.guards, site);
    regs' := regs;
    if TestGuard(g, st.heap, ValueOf(regs, obj)).Hit? {
      regs' := SimulateHitBlock(w, code, u, start, g.cached, site, sel, obj, args, n, regs, hitting, regs1, st, gas);
    } else {
      SimulateMiss(w, code, u, start, site, missing, regs1, st, gas);
    }
  }

  /** The hit block runs with the operands that were computed ahead of the guard. */
  lemma SimulateHitBlock(
    w: World, code: seq<Block>, u: Unit, start: Config, cached: nat, site: nat, sel: string, obj: Operand,
    args: seq<Operand>, n: nat, regs: Regs, b: Fn, regs1: Regs, st: State, gas: nat) returns (regs': Regs)
    requires Inserting(b) && n <= b.next && b.blocks[b.cur.value] == []
    requires Covers(code, GenHit(cached, site, sel, obj, args, b).1)
    requires Valid(obj, regs, n) && AllValid(args, regs, n) && Kept(regs, regs1, n)
    requires Reaches(w, code, start, StartOf(b.cur.value, regs1, st, gas))
    ensures var st1 := SetSite(st, site, SiteOf(st, site).(alternativeCount := 0));
            Simulates(w, code, u, start, n, regs, gas, GenHit(cached, site, sel, obj, args, b),
                      if cached == 0 then ExprFault
                      else FromEval(FromCall(w.invoke(cached, st1, ValueOf(regs, obj), sel, ValuesOf(regs, args)))),
                      regs')
  {
    ValuesKept(args, regs, regs1, n);
    regs' := SimulateHit(w, code, u, start, cached, site, sel, obj, args, b, regs1, st, gas);
  }

  /* ---- Whole expressions ---- */

  lemma SimulateClosureCall(
    w: World, code: seq<Block>, u: Unit, start: Config, f: Operand, args: seq<Operand>, b: Fn,
    regs: Regs, st: State, gas: nat) returns (regs': Regs)
    requires Inserting(b) && Covers(code, GenClosureCall(f, args, b).1)
    requires Reaches(w, code, start, Here(b, regs, st, gas))
    ensures var o := ValueOf(regs, f);
            Simulates(w, code, u, start, b.next, regs, gas, GenClosureCall(f, args, b),
                      if o == 0 then ExprFault else FromEval(FromCall(w.closure(st, o, ValuesOf(regs, args)))), regs')
  {
    var o := ValueOf(regs, f);
    var i := CallClosurePtr(b.next, f, args);
    var b1 := Define(b, i);
    CoversEarlier(code, b1, Emit(b1, SetCurrent));
    RunEmitted(w, code, start, b.(next := b.next + 1), i, regs, st, gas);
    regs' := regs;
    if o != 0 {
      var q := w.closure(st, o, ValuesOf(regs, args));
      if q.Ret? {
        RunDefined(w, code, start, b, i, regs, st, gas, q.value, q.st);
        regs' := regs[b.next := q.value];
        RunEmitted(w, code, start, b1, SetCurrent, regs', q.st, gas);
      }
    }
  }

  lemma SimulateNew(
    w: World, code: seq<Block>, u: Unit, start: Config, cls: string, b: Fn, regs: Regs, st: State, gas: nat)
    returns (regs': Regs)
    requires Inserting(b) && Covers(code, Define(b, New(b.next, cls)))
    requires Reaches(w, code, start, Here(b, regs, st, gas))
    ensures Simulates(w, code, u, start, b.next, regs, gas, (Reg(b.next), Define(b, New(b.next, cls))),
                      FromEval(EvalNew(w, cls, st)), regs')
  {
    var i := New(b.next, cls);
    RunEmitted(w, code, start, b.(next := b.next + 1), i, regs, st, gas);
    regs' := regs;
    if w.classNamed(cls) != 0 && !MemoryFull(w, st.heap) {
      var (o, st1) := NewInstance(w, st, w.classNamed(cls));
      RunDefined(w, code, start, b, i, regs, st, gas, o, st1);
      regs' := regs[b.next := o];
    }
  }

  /** A closure literal, with any bound variables: the object is built, then the closure's name is set. */
  lemma SimulateClosureLiteral(
    w: World, code: seq<Block>, u: Unit, start: Config, c: Closure, b: Fn, regs: Regs, st: State, gas: nat)
    returns (regs': Regs)
    requires Inserting(b) && Covers(code, GenExpr(u, ClosureLiteral(c), b).1)
    requires Reaches(w, code, start, Here(b, regs, st, gas))
    ensures Simulates(w, code, u, start, b.next, regs, gas, GenExpr(u, ClosureLiteral(c), b),
                      JitClosure(w, u.symbols, c, st), regs')
  {
    var captured := AddressesOf(u.symbols, c.boundVars);
    var i := MakeClosure(b.next, c, captured);
    var b1 := Define(b, i);
    assert GenExpr(u, ClosureLiteral(c), b) == (Reg(b.next), Emit(b1, StoreVar(StoreAddr(u, c.name), Reg(b.next))));
    CoversEarlier(code, b1, GenExpr(u, ClosureLiteral(c), b).1);
    regs' := regs;
    if MemoryFull(w, st.heap) {
      RunEmitted(w, code, start, b.(next := b.next + 1), i, regs, st, gas);
    } else {
      var (o, st1) := BuildClosure(w, st, c, captured);
      RunDefined(w, code, start, b, i, regs, st, gas, o, st1);
      regs' := regs[b.next := o];
      RunEmitted(w, code, start, b1, StoreVar(StoreAddr(u, c.name), Reg(b.next)), regs', st1, gas);
    }
  }

  /** The code of an expression computes what the compiled run does, exits where it misses and traps where it faults. */
  lemma {:induction false} SimulateExpr(
    w: World, code: seq<Block>, u: Unit, start: Config, e: Expr, b: Fn, regs: Regs, st: State, gas: nat)
    returns (regs': Regs)
    requires Inserting(b) && Covers(code, GenExpr(u, e, b).1)
    requires Reaches(w, code, start, Here(b, regs, st, gas))
    ensures Simulates(w, code, u, start, b.next, regs, gas, GenExpr(u, e, b),
                      JitExpr(w, u.symbols, u.guards, e, st), regs')
    decreases e, 1
  {
    regs' := regs;
    match e {
      case Number(_) =>
      case VarRef(x) =>
        var v := LookupSymbol(u.symbols, st, x);
        RunDefined(w, code, start, b, LoadVar(b.next, Resolve(u.symbols, x)), regs, st, gas, v, st);
        regs' := regs[b.next := v];
      case Binary(_, _, _) =>
        regs' := SimulateBinary(w, code, u, start, e, b, regs, st, gas);
      case MethodCall(_, _, _, _) =>
        regs' := SimulateMethodCall(w, code, u, start, e, b, regs, st, gas);
      case ClosureCall(_, _) =>
        regs' := SimulateCall(w, code, u, start, e, b, regs, st, gas);
      case NewObject(cls) =>
        regs' := SimulateNew(w, code, u, start, cls, b, regs, st, gas);
      case ClosureLiteral(c) =>
        regs' := SimulateClosureLiteral(w, code, u, start, c, b, regs, st, gas);
    }
  }

  lemma {:induction false} SimulateBinary(
    w: World, code: seq<Block>, u: Unit, start: Config, e: Expr, b: Fn, regs: Regs, st: State, gas: nat)
    returns (regs': Regs)
    requires e.Binary?
    requires Inserting(b) && Covers(code, GenExpr(u, e, b).1)
    requires Reaches(w, code, start, Here(b, regs, st, gas))
    ensures Simulates(w, code, u, start, b.next, regs, gas, GenExpr(u, e, b),
                      JitExpr(w, u.symbols, u.guards, e, st), regs')
    decreases e, 0
  {
    var (lo, b1) := GenExpr(u, e.lhs, b);
    var (ro, b2) := GenExpr(u, e.rhs, b1);
    CoversEarlier(code, b2, GenOp(e.op, lo, ro, b2).1);
    CoversEarlier(code, b1, b2);
    regs' := SimulateExpr(w, code, u, start, e.lhs, b, regs, st, gas);
    var ql := JitExpr(w, u.symbols, u.guards, e.lhs, st);
    if ql.Value? {
      var regs1 := regs';
      regs' := SimulateExpr(w, code, u, start, e.rhs, b1, regs1, ql.st, gas);
      var qr := JitExpr(w, u.symbols, u.guards, e.rhs, ql.st);
      if qr.Value? {
        var regs2 := regs';
        regs' := SimulateOp(w, code, u, start, e.op, lo, ro, b2, regs2, qr.st, gas);
        SimulatesFrom(w, code, u, start, b.next, b2.next, regs, regs2, gas, GenOp(e.op, lo, ro, b2),
                      JitOp(w, e.op, ql.v, qr.v, qr.st), regs');
      }
    }
  }

  lemma {:induction false} SimulateCall(
    w: World, code: seq<Block>, u: Unit, start: Config, e: Expr, b: Fn, regs: Regs, st: State, gas: nat)
    returns (regs': Regs)
    requires e.ClosureCall?
    requires Inserting(b) && Covers(code, GenExpr(u, e, b).1)
    requires Reaches(w, code, start, Here(b, regs, st, gas))
    ensures Simulates(w, code, u, start, b.next, regs, gas, GenExpr(u, e, b),
                      JitExpr(w, u.symbols, u.guards, e, st), regs')
    decreases e, 0
  {
    var (f, b1) := GenExpr(u, e.callee, b);
    var (os, b2) := GenArgs(u, e.args, b1);
    CoversEarlier(code, b2, GenClosureCall(f, os, b2).1);
    CoversEarlier(code, b1, b2);
    regs' := SimulateExpr(w, code, u, start, e.callee, b, regs, st, gas);
    var q := JitExpr(w, u.symbols, u.guards, e.callee, st);
    if q.Value? {
      var regs1 := regs';
      regs' := SimulateArgs(w, code, u, start, e.args, b1, regs1, q.st, gas);
      var qa := JitArgs(w, u.symbols, u.guards, e.args, q.st);
      if qa.Values? {
        var regs2 := regs';
        regs' := SimulateClosureCall(w, code, u, start, f, os, b2, regs2, qa.st, gas);
        SimulatesFrom(w, code, u, start, b.next, b2.next, regs, regs2, gas, GenClosureCall(f, os, b2),
                      JitExpr(w, u.symbols, u.guards, e, st), regs');
      }
    }
  }

  lemma {:induction false} SimulateMethodCall(
    w: World, code: seq<Block>, u: Unit, start: Config, e: Expr, b: Fn, regs: Regs, st: State, gas: nat)
    returns (regs': Regs)
    requires e.MethodCall?
    requires Inserting(b) && Covers(code, GenExpr(u, e, b).1)
    requires Reaches(w, code, start, Here(b, regs, st, gas))
    ensures Simulates(w, code, u, start, b.next, regs, gas, GenExpr(u, e, b),
                      JitExpr(w, u.symbols, u.guards, e, st), regs')
    decreases e, 0
  {
    var (obj, b1) := GenExpr(u, e.callee, b);
    var (os, b2) := GenArgs(u, e.args, b1);
    CoversEarlier(code, b2, GenGuarded(u, e.site, e.selector, obj, os, b2).1);
    CoversEarlier(code, b1, b2);
    regs' := SimulateExpr(w, code, u, start, e.callee, b, regs, st, gas);
    var q := JitExpr(w, u.symbols, u.guards, e.callee, st);
    if q.Value? {
      regs' := SimulateOnReceiver(
        w, code, u, start, e.site, e.selector, e.args, obj, q.v, b.next, b1, os, b2, regs, regs', q.st, gas);
    }
  }

  /** With the receiver evaluated, the arguments and then the guarded call. */
  lemma {:induction false} SimulateOnReceiver(
    w: World, code: seq<Block>, u: Unit, start: Config, site: nat, sel: string, args: seq<Expr>, obj: Operand, v: Word,
    n: nat, b1: Fn, os: seq<Operand>, b2: Fn, regs: Regs, regs1: Regs, st: State, gas: nat)
    returns (regs': Regs)
    requires Inserting(b1) && n <= b1.next && Kept(regs, regs1, n) && (os, b2) == GenArgs(u, args, b1)
    requires Covers(code, GenGuarded(u, site, sel, obj, os, b2).1) && Covers(code, b2)
    requires Valid(obj, regs1, b1.next) && ValueOf(regs1, obj) == v
    requires Reaches(w, code, start, Here(b1, regs1, st, gas))
    ensures Simulates(w, code, u, start, n, regs, gas, GenGuarded(u, site, sel, obj, os, b2),
                      (match JitArgs(w, u.symbols, u.guards, args, st)
                       case Values(vs, st2) => JitGuarded(w, u.guards, site, sel, v, vs, st2)
                       case ArgsMiss(id, st2) => Miss(id, st2)
                       case ArgsFaulted => ExprFault
                       case ArgsParted => ExprParted), regs')
    decreases args, 1
  {
    regs' := SimulateArgs(w, code, u, start, args, b1, regs1, st, gas);
    var qa := JitArgs(w, u.symbols, u.guards, args, st);
    if qa.Values? {
      var regs2 := regs';
      var o := JitGuarded(w, u.guards, site, sel, v, qa.vs, qa.st);
      regs' := SimulateGuarded(w, code, u, start, site, sel, obj, os, b2, regs2, qa.st, gas, o);
      SimulatesFrom(w, code, u, start, n, b2.next, regs, regs2, gas, GenGuarded(u, site, sel, obj, os, b2), o, regs');
    }
  }

  lemma {:induction false} SimulateArgs(
    w: World, code: seq<Block>, u: Unit, start: Config, args: seq<Expr>, b: Fn, regs: Regs, st: State, gas: nat)
    returns (regs': Regs)
    requires Inserting(b) && Covers(code, GenArgs(u, args, b).1)
    requires Reaches(w, code, start, Here(b, regs, st, gas))
    ensures SimulatesArgs(w, code, u, start, b.next, regs, gas, GenArgs(u, args, b),
                          JitArgs(w, u.symbols, u.guards, args, st), regs')
    decreases args, 0
  {
    regs' := regs;
    if args != [] {
      var (o, b1) := GenExpr(u, args[0], b);
      var (os, b2) := GenArgs(u, args[1..], b1);
      CoversEarlier(code, b1, b2);
      regs' := SimulateExpr(w, code, u, start, args[0], b, regs, st, gas);
      var q := JitExpr(w, u.symbols, u.guards, args[0], st);
      if q.Value? {
        var regs1 := regs';
        regs' := SimulateArgs(w, code, u, start, args[1..], b1, regs1, q.st, gas);
        var qa := JitArgs(w, u.symbols, u.guards, args[1..], q.st);
        if qa.Values? {
          assert ([o] + os)[1..] == os;
          assert ValueOf(regs', o) == q.v;
        }
      }
    }
  }
}
