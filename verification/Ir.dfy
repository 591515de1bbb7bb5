/**
 The basic blocks that compiled functions are made of, and the machine that
 runs them one instruction at a time.
 */
module Ir {
  import opened Tagged
  import opened Ast
  import opened Runtime

  datatype Operand = Imm(w: Word) | Reg(r: nat)

  /**
   `loop` marks the branch of a while header; it only makes the machine count
   iterations in the same unit of gas as the interpreter.
   */
  datatype Instr =
    | LoadVar(dst: nat, addr: Addr)
    | StoreVar(addr: Addr, v: Operand)
    | ICmp(dst: nat, cmp: CmpOp, l: Operand, r: Operand)
    | BoxInt(dst: nat, v: Operand)
    | CallHelper(dst: nat, op: ArithOp, l: Operand, r: Operand)
    | LShr(dst: nat, v: Operand)
    | IsNotNull(dst: nat, v: Operand)
    | AndTag(dst: nat, v: Operand)
    | LoadClass(dst: nat, v: Operand)
    | IsClass(dst: nat, v: Operand, cls: Word)
    | CallClosurePtr(dst: nat, f: Operand, args: seq<Operand>)
    | CallSlot(dst: nat, slot: nat, recv: Operand, selector: string, args: seq<Operand>)
    | ResetCounter(site: nat)
    | New(dst: nat, className: string)
    | MakeClosure(dst: nat, closure: Closure, captured: seq<Addr>)
    | SetCurrent
    | Patchpoint(dst: nat, site: nat, frame: seq<Addr>)
    | Br(target: nat)
    | CondBr(cond: Operand, taken: nat, skipped: nat, loop: bool)
    | Ret(v: Operand)

  type Block = seq<Instr>

  type Regs = map<nat, Word>

  /** A running machine: where it is, its registers and its state. */
  datatype Live = Live(block: nat, index: nat, regs: Regs, st: State, gas: nat)

  datatype Config =
    | Running(live: Live)
    | Halted(v: Word, st: State, gas: nat)
    | Exited(site: nat, frame: seq<Addr>, st: State, gas: nat)
    | Trap
    | GasOut
    | Wild

  function ValueOf(regs: Regs, o: Operand): Word {
    match o
    case Imm(w) => w
    case Reg(r) => if r in regs then regs[r] else 0
  }

  function ValuesOf(regs: Regs, os: seq<Operand>): seq<Word> {
    if os == [] then [] else [ValueOf(regs, os[0])] + ValuesOf(regs, os[1..])
  }

  /** The object built for a closure literal: the header, then each captured variable once. */
  function BuildClosure(w: World, st: State, c: Closure, captured: seq<Addr>): (Word, State) {
    var o := w.allocate(st.heap);
    (o, st.(heap := st.heap[o := ClosureHeader(w, c) + LoadAll(st, captured)]))
  }

  function LoadAll(st: State, addrs: seq<Addr>): (vs: seq<Word>)
    ensures |vs| == |addrs|
  {
    if addrs == [] then [] else [Load(st, addrs[0])] + LoadAll(st, addrs[1..])
  }

  /** `mysoreScriptAdd` and its siblings test only the left operand and assert the right one. */
  function RunHelper(w: World, op: ArithOp, l: Word, r: Word, st: State): CallResult {
    if !IsInteger(l) then w.overload(op, st, l, r)
    else if !IsInteger(r) then Fault
    else
      match TaggedArith(op, l, r)
      case Fine(v) => CallResult.Ret(v, st)
      case Trapped => Fault
  }

  function Next(c: Live): Live {
    c.(index := c.index + 1)
  }

  function Jump(c: Live, target: nat): Live {
    c.(block := target, index := 0)
  }

  function SetReg(c: Live, dst: nat, v: Word, st: State): Config {
    Running(Next(c).(regs := c.regs[dst := v], st := st))
  }

  function AfterCall(c: Live, dst: nat, r: CallResult): Config {
    match r
    case Ret(v, st) => SetReg(c, dst, v, st)
    case Fault => Trap
  }

  function Step(w: World, code: seq<Block>, c: Config): Config {
    match c
    case Running(l) =>
      if l.block < |code| && l.index < |code[l.block]| then RunInstr(w, code[l.block][l.index], l) else Wild
    case _ => c
  }

  function RunInstr(w: World, instr: Instr, c: Live): Config {
    var regs, st := c.regs, c.st;
    match instr
    case LoadVar(d, a) => SetReg(c, d, Load(st, a), st)
    case StoreVar(a, v) => Running(Next(c).(st := Store(st, a, ValueOf(regs, v))))
    case ICmp(d, op, l, r) => SetReg(c, d, if WordCompare(op, ValueOf(regs, l), ValueOf(regs, r)) then 1 else 0, st)
    case BoxInt(d, v) => SetReg(c, d, Encode(Signed(ValueOf(regs, v))), st)
    case CallHelper(d, op, l, r) => AfterCall(c, d, RunHelper(w, op, ValueOf(regs, l), ValueOf(regs, r), st))
    case LShr(d, v) => SetReg(c, d, Lshr3(ValueOf(regs, v)), st)
    case IsNotNull(d, v) => SetReg(c, d, if ValueOf(regs, v) != 0 then 1 else 0, st)
    case AndTag(d, v) => SetReg(c, d, Tag(ValueOf(regs, v)), st)
    case LoadClass(d, v) =>
      var o := ValueOf(regs, v);
      if o in st.heap && st.heap[o] != [] then SetReg(c, d, st.heap[o][0], st) else Wild
    case IsClass(d, v, cls) => SetReg(c, d, if ValueOf(regs, v) == cls then 1 else 0, st)
    case CallClosurePtr(d, f, args) =>
      var o := ValueOf(regs, f);
      if o == 0 then Trap else AfterCall(c, d, w.closure(st, o, ValuesOf(regs, args)))
    case CallSlot(d, slot, recv, sel, args) =>
      if slot == 0 then Trap
      else AfterCall(c, d, w.invoke(slot, st, ValueOf(regs, recv), sel, ValuesOf(regs, args)))
    case ResetCounter(site) =>
      Running(Next(c).(st := SetSite(st, site, SiteOf(st, site).(alternativeCount := 0))))
    case New(d, cls) =>
      if w.classNamed(cls) == 0 || MemoryFull(w, st.heap) then Trap
      else
        var (o, st1) := NewInstance(w, st, w.classNamed(cls));
        SetReg(c, d, o, st1)
    case MakeClosure(d, closure, captured) =>
      if MemoryFull(w, st.heap) then Trap
      else
        var (o, st1) := BuildClosure(w, st, closure, captured);
        SetReg(c, d, o, st1)
    case SetCurrent => Running(Next(c))
    case Patchpoint(_, site, frame) => Exited(site, frame, st, c.gas)
    case Br(target) => Running(Jump(c, target))
    case CondBr(cond, t, f, loop) =>
      if ValueOf(regs, cond) == 0 then Running(Jump(c, f))
      else if !loop then Running(Jump(c, t))
      else if c.gas == 0 then GasOut
      else Running(Jump(c, t).(gas := c.gas - 1))
    case Ret(v) => Halted(ValueOf(regs, v), st, c.gas)
  }

  function Steps(w: World, code: seq<Block>, c: Config, k: nat): Config
    decreases k
  {
    if k == 0 then c else Steps(w, code, Step(w, code, c), k - 1)
  }

  ghost predicate Reaches(w: World, code: seq<Block>, c: Config, c': Config) {
    exists k: nat :: Steps(w, code, c, k) == c'
  }

  lemma {:induction false} StepsAdd(w: World, code: seq<Block>, c: Config, j: nat, k: nat)
    ensures Steps(w, code, Steps(w, code, c, j), k) == Steps(w, code, c, j + k)
    decreases j
  {
    if j > 0 {
      StepsAdd(w, code, Step(w, code, c), j - 1, k);
    }
  }

  lemma ReachesSelf(w: World, code: seq<Block>, c: Config)
    ensures Reaches(w, code, c, c)
  {
    assert Steps(w, code, c, 0) == c;
  }

  lemma ReachesThen(w: World, code: seq<Block>, c: Config, c1: Config, c2: Config)
    requires Reaches(w, code, c, c1) && Reaches(w, code, c1, c2)
    ensures Reaches(w, code, c, c2)
  {
    var j: nat :| Steps(w, code, c, j) == c1;
    var k: nat :| Steps(w, code, c1, k) == c2;
    StepsAdd(w, code, c, j, k);
  }

  lemma ReachesStep(w: World, code: seq<Block>, c: Config, c1: Config)
    requires Reaches(w, code, c, c1)
    ensures Reaches(w, code, c, Step(w, code, c1))
  {
    assert Steps(w, code, c1, 1) == Step(w, code, c1);
    ReachesThen(w, code, c, c1, Step(w, code, c1));
  }

  /* ---- Finished runs are unique ---- */

  predicate Final(c: Config) {
    !c.Running?
  }

  lemma {:induction false} FinalStays(w: World, code: seq<Block>, c: Config, k: nat)
    requires Final(c)
    ensures Steps(w, code, c, k) == c
    decreases k
  {
    if k > 0 {
      FinalStays(w, code, c, k - 1);
    }
  }

  /** A run ends in at most one final configuration. */
  lemma FinalIsUnique(w: World, code: seq<Block>, c: Config, c1: Config, c2: Config)
    requires Reaches(w, code, c, c1) && Final(c1)
    requires Reaches(w, code, c, c2) && Final(c2)
    ensures c1 == c2
  {
    var j: nat :| Steps(w, code, c, j) == c1;
    var k: nat :| Steps(w, code, c, k) == c2;
    if j <= k {
      StepsAdd(w, code, c, j, k - j);
      FinalStays(w, code, c1, k - j);
    } else {
      StepsAdd(w, code, c, k, j - k);
      FinalStays(w, code, c2, j - k);
    }
  }
}
