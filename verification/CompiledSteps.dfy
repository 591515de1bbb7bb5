/**
 Single steps of generated code, on all inputs and in particular on those where the
 interpreter does something else: what the machine holds after them.
 */
module CompiledSteps {
  import opened Tagged
  import opened Ast
  import opened Runtime
  import opened Interpreter
  import opened Guarded
  import opened CompiledRun
  import opened Frames
  import Closures
  import opened Ir
  import opened CodeGen
  import opened ExprCode

  /** The machine has run the code of an expression: its value is in the operand, earlier registers are kept. */
  ghost predicate Arrives(
    w: World, code: seq<Block>, start: Config, n: nat, regs: Regs, gas: nat, g: (Operand, Fn), v: Word, st: State,
    regs': Regs)
    requires Inserting(g.1)
  {
    && Reaches(w, code, start, Here(g.1, regs', st, gas)) && Kept(regs, regs', n)
    && Valid(g.0, regs', g.1.next) && ValueOf(regs', g.0) == v
  }

  /** The variable of the closure's name, if it is a word of an object, is one of an object that exists. */
  predicate NameIsStored(tab: Table, c: Closure, st: State) {
    var a := Resolve(tab, c.name);
    a.Field? ==> a.owner in st.heap
  }

  /**
   The code of a closure literal, with any bound variables: a new object, which its
   name refers to, and in which every bound variable, entered compiled or interpreted,
   has the word that the variable had before; or a trap when memory is full.
   */
  lemma LiteralRuns(
    w: World, code: seq<Block>, u: Unit, start: Config, c: Closure, b: Fn, regs: Regs, st: State, gas: nat)
    returns (o: Word, st': State, regs': Regs)
    requires Inserting(b) && Covers(code, GenExpr(u, ClosureLiteral(c), b).1)
    requires Reaches(w, code, start, Here(b, regs, st, gas))
    requires Closures.Checked(c) && NameIsStored(u.symbols, c, st)
    ensures if w.allocate(st.heap) in st.heap then Reaches(w, code, start, Trap)
            else
              && Arrives(w, code, start, b.next, regs, gas, GenExpr(u, ClosureLiteral(c), b), o, st', regs')
              && o !in st.heap && o in st'.heap && ClosureHeader(w, c) <= st'.heap[o]
              && (forall x | x in c.boundVars ::
                    && LookupSymbol(ClosureSymbols(Closures.Entered(c, o)), st', x) == LookupSymbol(u.symbols, st, x)
                    && LookupSymbol(ClosureTable(Closures.Entered(c, o)), st', x) == LookupSymbol(u.symbols, st, x))
              && (var a := Resolve(u.symbols, c.name);
                  !a.Null? && !a.Field? ==> LookupSymbol(u.symbols, st', c.name) == o)
  {
    regs' := SimulateClosureLiteral(w, code, u, start, c, b, regs, st, gas);
    o, st' := 0, st;
    if !MemoryFull(w, st.heap) {
      o, st' := CreateCompiled(w, u.symbols, c, st).0, CreateCompiled(w, u.symbols, c, st).1;
      forall x | x in c.boundVars
        ensures LookupSymbol(ClosureSymbols(Closures.Entered(c, o)), st', x) == LookupSymbol(u.symbols, st, x)
        ensures LookupSymbol(ClosureTable(Closures.Entered(c, o)), st', x) == LookupSymbol(u.symbols, st, x)
      {
        Closures.CompiledCapture(w, u.symbols, c, st, st', x);
      }
    }
  }

  /** Compiled comparisons are of whole words, tags included, and answer one or zero. */
  lemma ComparisonRuns(
    w: World, code: seq<Block>, u: Unit, start: Config, op: CmpOp, l: Operand, r: Operand, b: Fn,
    regs: Regs, st: State, gas: nat) returns (regs': Regs)
    requires Inserting(b) && Covers(code, GenOp(Comparison(op), l, r, b).1)
    requires Reaches(w, code, start, Here(b, regs, st, gas))
    ensures var lv, rv := ValueOf(regs, l), ValueOf(regs, r);
            var yes := match op
              case Eq => lv == rv
              case Ne => lv != rv
              case Lt => Signed(lv) < Signed(rv)
              case Gt => Signed(lv) > Signed(rv)
              case Le => Signed(lv) <= Signed(rv)
              case Ge => Signed(lv) >= Signed(rv);
            Arrives(w, code, start, b.next, regs, gas, GenOp(Comparison(op), l, r, b), if yes then 9 else 1, st, regs')
  {
    regs' := SimulateOp(w, code, u, start, Comparison(op), l, r, b, regs, st, gas);
    EncodeDecode(1);
    EncodeDecode(0);
  }

  /** `var x;` generates nothing: the machine stays where it is, and `x` keeps what it holds. */
  lemma DeclarationRuns(
    w: World, code: seq<Block>, u: Unit, start: Config, x: string, b: Fn, regs: Regs, st: State, gas: nat)
    requires Inserting(b) && Covers(code, GenStmt(u, Decl(x, None), b))
    requires Reaches(w, code, start, Here(b, regs, st, gas))
    ensures Inserting(GenStmt(u, Decl(x, None), b))
    ensures Reaches(w, code, start, Here(GenStmt(u, Decl(x, None), b), regs, st, gas))
  {
  }

  /** The receiver is of the class that was compiled in: a number for that of numbers, or an object of the class. */
  predicate IsOf(heap: Heap, obj: Word, cls: Word) {
    if cls == SMALL_INT_CLASS then obj % 8 != 0
    else obj != 0 && obj in heap && heap[obj] != [] && heap[obj][0] == cls
  }

  /** The receiver is null, an object where a number was compiled in, or an object of another class. */
  predicate IsNot(heap: Heap, obj: Word, cls: Word) {
    obj == 0 || if cls == SMALL_INT_CLASS then obj % 8 == 0
                else obj in heap && heap[obj] != [] && heap[obj][0] != cls
  }

  /**
   A guarded call, whatever the profile of its site has become: on a receiver of the
   compiled class it calls the slot compiled in, after resetting the counter, or traps
   without one; on any other it exits with the frame, whatever the arguments have
   changed. A site without a profile at compilation has the null class and no slot.
   */
  lemma GuardedCallRuns(
    w: World, code: seq<Block>, u: Unit, start: Config, site: nat, sel: string, obj: Operand, args: seq<Operand>,
    b: Fn, regs: Regs, st: State, gas: nat, g: Baked) returns (regs': Regs)
    requires Inserting(b) && Covers(code, GenGuarded(u, site, sel, obj, args, b).1)
    requires Valid(obj, regs, b.next) && AllValid(args, regs, b.next)
    requires Reaches(w, code, start, Here(b, regs, st, gas))
    requires g == if site in u.guards then u.guards[site] else Baked(0, 0)
    ensures var o := ValueOf(regs, obj);
            && (IsNot(st.heap, o, g.assumed) ==> Reaches(w, code, start, Exited(site, u.frame, st, gas)))
            && (IsOf(st.heap, o, g.assumed) ==>
                  var s := if site in st.sites then st.sites[site] else Site(0, 0, 0, 0);
                  var called := st.(sites := st.sites[site := Site(s.assumed, s.alternative, 0, s.cached)]);
                  if g.cached == 0 then Reaches(w, code, start, Trap)
                  else
                    match w.invoke(g.cached, called, o, sel, ValuesOf(regs, args))
                    case Ret(v, st1) =>
                      Arrives(w, code, start, b.next, regs, gas, GenGuarded(u, site, sel, obj, args, b), v, st1, regs')
                    case Fault => Reaches(w, code, start, Trap))
  {
    var o := JitGuarded(w, u.guards, site, sel, ValueOf(regs, obj), ValuesOf(regs, args), st);
    regs' := SimulateGuarded(w, code, u, start, site, sel, obj, args, b, regs, st, gas, o);
  }
}
