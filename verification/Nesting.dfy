/**
 Programs whose functions are interpreted: a world in which the calls of such
 functions, to a given depth, are runs of their bodies.
 */
module Nesting {
  import opened Tagged
  import opened Ast
  import opened Runtime
  import opened Interpreter
  import opened Frames

  /**
   `methods` are the trees of the methods whose slots hold the interpreter's
   trampoline, `closures` those of the closures that are not compiled, by tree
   pointer. `budget` is the number of loop passes that each call may make. All
   other callees are those of `base`.
   */
  datatype Program = Program(
    base: World,
    methods: map<nat, Closure>,
    closures: map<Word, Closure>,
    selector: string -> Word,
    budget: nat)

  function MethodName(op: ArithOp): string {
    match op
    case Add => "add"
    case Sub => "sub"
    case Mul => "mul"
    case Div => "div"
  }

  /**
   The method that runs when slot `slot` is called. The trampoline is the same
   function in every slot: it looks the method up again, by receiver and selector.
   */
  function MethodBehind(p: Program, slot: nat, heap: Heap, obj: Word, sel: string): Option<Closure> {
    var found := p.base.lookup(ClassOf(heap, obj), sel);
    if slot in p.methods && found in p.methods then Some(p.methods[found]) else None
  }

  /** The tree of a closure object that is not compiled. */
  function ClosureBehind(p: Program, heap: Heap, obj: Word): Option<Closure> {
    if obj in heap && |heap[obj]| >= BOUND_BASE && heap[obj][0] == CLOSURE_CLASS && heap[obj][3] in p.closures
    then Some(p.closures[heap[obj][3]])
    else None
  }

  /** The slot of an overloaded operator, 0 when the left operand has no such method. */
  function OperatorSlot(p: Program, op: ArithOp, heap: Heap, l: Word): nat {
    if l == 0 then 0 else p.base.lookup(ClassOf(heap, l), MethodName(op))
  }

  /* ---- Stack frames ---- */

  /** The stack frame of a caller is out of reach of its callee. */
  function Frameless(st: State): State {
    st.(mem := map a | a in st.mem && a.Global? :: st.mem[a])
  }

  /** Back in the caller: its own frame, and the globals as the callee left them. */
  function BackIn(caller: State, st: State): State {
    var frame := map a | a in caller.mem && !a.Global? :: caller.mem[a];
    st.(mem := frame + Frameless(st).mem)
  }

  /** Parameters, locals and receiver of the running function are the same: values and absences. */
  ghost predicate SameFrame(st: State, st': State) {
    forall x: Addr | !x.Global? :: (x in st'.mem <==> x in st.mem) && (x in st.mem ==> st'.mem[x] == st.mem[x])
  }

  /** A call of method `d` on `obj`. */
  function MethodActivation(p: Program, d: Closure, heap: Heap, obj: Word): Activation {
    var ivars := p.base.ivarNames(ClassOf(heap, obj));
    Activation(d, true, obj, ivars, ivars)
  }

  function ClosureActivation(d: Closure, obj: Word): Activation {
    Activation(d, false, obj, [], [])
  }

  /* ---- The world at a depth ---- */

  /** A callee that fails, or does not come back within its budget, fails the call. */
  function FromCallee(r: Run, caller: State): CallResult {
    match r
    case Done(c) => Ret(c.retVal, BackIn(caller, c.st))
    case _ => Fault
  }

  /** An interpreted call, with a null return value in the context. */
  function RunActivation(p: Program, depth: nat, a: Activation, sel: Word, vs: seq<Word>, st: State): CallResult
    decreases depth, 2
  {
    if |vs| != |a.decl.params| then Fault
    else
      var c := Ctx(EntryState(a, sel, vs, Frameless(st)), 0, false, false, p.budget);
      FromCallee(InterpBody(WorldAt(p, depth), InterpretedTable(a), a.decl.body, c), st)
  }

  function Invoke(p: Program, depth: nat, slot: nat, st: State, obj: Word, sel: string, vs: seq<Word>): CallResult
    decreases depth, 0
  {
    var m := MethodBehind(p, slot, st.heap, obj, sel);
    if depth == 0 || m.None? then p.base.invoke(slot, st, obj, sel, vs)
    else RunActivation(p, depth - 1, MethodActivation(p, m.value, st.heap, obj), p.selector(sel), vs, st)
  }

  function InvokeClosure(p: Program, depth: nat, st: State, obj: Word, vs: seq<Word>): CallResult
    decreases depth, 0
  {
    var d := ClosureBehind(p, st.heap, obj);
    if depth == 0 || d.None? then p.base.closure(st, obj, vs)
    else RunActivation(p, depth - 1, ClosureActivation(d.value, obj), 0, vs, st)
  }

  function InvokeOperator(p: Program, depth: nat, op: ArithOp, st: State, l: Word, r: Word): CallResult
    decreases depth, 0
  {
    var slot := OperatorSlot(p, op, st.heap, l);
    var m := MethodBehind(p, slot, st.heap, l, MethodName(op));
    if depth == 0 || slot == 0 || m.None? then p.base.overload(op, st, l, r)
    else RunActivation(p, depth - 1, MethodActivation(p, m.value, st.heap, l), p.selector(MethodName(op)), [r], st)
  }

  /** Interpreted functions call each other up to `depth` calls deep. */
  function WorldAt(p: Program, depth: nat): World
    decreases depth, 1
  {
    p.base.(
      invoke := (slot: nat, st: State, obj: Word, sel: string, vs: seq<Word>) =>
        Invoke(p, depth, slot, st, obj, sel, vs),
      closure := (st: State, obj: Word, vs: seq<Word>) => InvokeClosure(p, depth, st, obj, vs),
      overload := (op: ArithOp, st: State, l: Word, r: Word) => InvokeOperator(p, depth, op, st, l, r))
  }
}
