/**
 What storage does: a variable holds what was stored in it last, other variables and
 other objects are left alone, and a new object has the class it was made from and
 null in every instance variable.
 */
module StorageLaws {
  import opened Tagged
  import opened Ast
  import opened Runtime
  import opened Interpreter
  import opened Frames

  /** The address can be stored to: a word of an object must exist. */
  predicate HasPlace(st: State, a: Addr) {
    match a
    case Null => false
    case Field(o, i) => o in st.heap && i < |st.heap[o]|
    case _ => true
  }

  lemma StoreThenLoad(st: State, a: Addr, v: Word, b: Addr)
    requires HasPlace(st, a)
    ensures Load(Store(st, a, v), b) == if a == b then v else Load(st, b)
    ensures HasPlace(Store(st, a, v), b) <==> HasPlace(st, b)
  {
  }

  /** A store reaches the one word and nothing else. */
  lemma StoreLeavesAlone(st: State, a: Addr, v: Word)
    ensures var st' := Store(st, a, v);
            && st'.sites == st.sites && st'.heap.Keys == st.heap.Keys
            && (!a.Field? ==> st'.heap == st.heap) && (a.Field? ==> st'.mem == st.mem)
            && (forall b | b != a :: b in st'.mem <==> b in st.mem)
            && (forall o | o in st.heap :: |st'.heap[o]| == |st.heap[o]|)
            && (forall o | o in st.heap && !(a.Field? && a.owner == o) :: st'.heap[o] == st.heap[o])
            && (!HasPlace(st, a) ==> st' == st)
  {
  }

  /** `x = e;` makes `x` the value of `e`, and no variable that lives elsewhere changes. */
  lemma AssignThenRead(w: World, tab: Table, x: string, e: Expr, c: Ctx, y: string, v: Word, st: State)
    requires EvalExpr(w, tab, e, c.st) == Val(v, st) && HasPlace(st, Resolve(tab, x))
    ensures var r := InterpStmt(w, tab, Assign(x, e), c);
            && InterpStmt(w, tab, Decl(x, Some(e)), c) == r
            && r.Done? && r.c == c.(st := r.c.st)
            && EvalExpr(w, tab, VarRef(x), r.c.st) == Val(v, r.c.st)
            && (Resolve(tab, y) != Resolve(tab, x) ==>
                  EvalExpr(w, tab, VarRef(y), r.c.st) == Val(LookupSymbol(tab, st, y), r.c.st))
  {
    StoreThenLoad(st, Resolve(tab, x), v, Resolve(tab, x));
    StoreThenLoad(st, Resolve(tab, x), v, Resolve(tab, y));
  }

  /** `var x;` makes it null. */
  lemma DeclareThenRead(w: World, tab: Table, x: string, c: Ctx)
    requires HasPlace(c.st, Resolve(tab, x))
    ensures var r := InterpStmt(w, tab, Decl(x, None), c);
            r.Done? && EvalExpr(w, tab, VarRef(x), r.c.st) == Val(0, r.c.st)
  {
    StoreThenLoad(c.st, Resolve(tab, x), 0, Resolve(tab, x));
  }

  /* ---- New objects ---- */

  /** `new C`: an object at a fresh address, of class C, with a null word for each instance variable. */
  lemma NewObjectIs(w: World, tab: Table, name: string, st: State)
    requires w.classNamed(name) != 0 && w.allocate(st.heap) !in st.heap
    ensures var r := EvalExpr(w, tab, NewObject(name), st);
            && r.Val? && r.v !in st.heap && r.st.heap.Keys == st.heap.Keys + {r.v}
            && (forall o | o in st.heap :: r.st.heap[o] == st.heap[o])
            && r.st.mem == st.mem && r.st.sites == st.sites
            && |r.st.heap[r.v]| == 1 + |w.ivarNames(w.classNamed(name))|
            && (!IsInteger(r.v) ==> ClassOf(r.st.heap, r.v) == w.classNamed(name))
            && forall i | 1 <= i < |r.st.heap[r.v]| :: r.st.heap[r.v][i] == 0
  {
  }

  lemma NewFails(w: World, tab: Table, name: string, st: State)
    requires w.classNamed(name) == 0 || w.allocate(st.heap) in st.heap
    ensures EvalExpr(w, tab, NewObject(name), st) == EvalFault
  {
  }

  /** In a method of the new object every instance variable is null, has its own word and keeps what it is set to. */
  lemma NewVariables(w: World, name: string, st: State, d: Closure, x: string, y: string, v: Word)
    requires w.classNamed(name) != 0 && w.allocate(st.heap) !in st.heap
    requires var ivars := w.ivarNames(w.classNamed(name)); x in ivars && y in ivars
    ensures var r := EvalNew(w, name, st);
            var ivars := w.ivarNames(w.classNamed(name));
            var a := Activation(d, true, r.v, ivars, ivars);
            var st1 := Store(r.st, Resolve(MethodTable(a), x), v);
            && LookupSymbol(MethodTable(a), r.st, x) == LookupSymbol(MethodSymbols(a), r.st, x) == 0
            && LookupSymbol(MethodTable(a), st1, x) == LookupSymbol(MethodSymbols(a), st1, x) == v
            && (x != y ==> LookupSymbol(MethodTable(a), st1, y) == LookupSymbol(MethodSymbols(a), st1, y) == 0)
            && st1.heap[r.v][0] == r.st.heap[r.v][0]
  {
    var r := EvalNew(w, name, st);
    var ivars := w.ivarNames(w.classNamed(name));
    var a := Activation(d, true, r.v, ivars, ivars);
    NewObjectIs(w, map[], name, st);
    forall z | z in ivars
      ensures Resolve(MethodTable(a), z) == Resolve(MethodSymbols(a), z) == Field(r.v, 1 + Place(ivars, z))
    {
      MethodSymbolOf(a, z);
      MethodTablesAgree(a, z);
    }
    StoreThenLoad(r.st, Resolve(MethodTable(a), x), v, Resolve(MethodTable(a), x));
    StoreThenLoad(r.st, Resolve(MethodTable(a), x), v, Resolve(MethodTable(a), y));
  }

  /**
   A closure literal is a new object of the class of closures: the number of its
   parameters, its two pointers, and then what it captures. Its name refers to it.
   */
  lemma NewClosureIs(w: World, tab: Table, c: Closure, st: State)
    requires EvalExpr(w, tab, ClosureLiteral(c), st).Val?
    requires var a := Resolve(tab, c.name); a.Field? ==> a.owner in st.heap
    ensures var r := EvalExpr(w, tab, ClosureLiteral(c), st);
            && r.v !in st.heap && r.v in r.st.heap && |r.st.heap[r.v]| >= 4 && r.st.sites == st.sites
            && (!IsInteger(r.v) ==> ClassOf(r.st.heap, r.v) == CLOSURE_CLASS)
            && r.st.heap[r.v][1] == Encode(|c.params|)
            && (r.st.heap[r.v][2], r.st.heap[r.v][3]) == w.closurePointers(c)
            && (var a := Resolve(tab, c.name);
                !a.Null? && !a.Field? ==> LookupSymbol(tab, r.st, c.name) == r.v)
            && forall o | o in st.heap && !(Resolve(tab, c.name).Field? && Resolve(tab, c.name).owner == o) ::
                 r.st.heap[o] == st.heap[o]
  {
  }

  /** Capturing a variable that has never been given a value, or whose entry is null, fails. */
  lemma CaptureFails(w: World, tab: Table, c: Closure, st: State, x: string)
    requires x in c.boundVars && x != c.name && Resolve(tab, x) != Resolve(tab, c.name)
    requires if x in tab then tab[x] == Null else Global(x) !in st.mem
    ensures EvalExpr(w, tab, ClosureLiteral(c), st) == EvalFault
  {
    var o := w.allocate(st.heap);
    var st1 := SetSymbol(tab, st.(heap := st.heap[o := ClosureHeader(w, c) + Zeros(|c.boundVars|)]), c.name, o);
    assert !HasStorage(tab, st1, x);
  }

  /** Numbers have a class of their own. */
  lemma ClassOfNumber(heap: Heap, i: int)
    ensures Fits(i) ==> ClassOf(heap, Encode(i)) == SMALL_INT_CLASS
  {
    EncodeDecode(if Fits(i) then i else 0);
  }

  /* ---- Arguments ---- */

  /** Arguments are evaluated from the first to the last, each in the state that the ones before it leave. */
  lemma {:induction false} ArgumentsInOrder(w: World, tab: Table, args: seq<Expr>, st: State)
    returns (states: seq<State>)
    requires EvalArgs(w, tab, args, st).Vals?
    ensures var r := EvalArgs(w, tab, args, st);
            && |r.vs| == |args| && |states| == |args| + 1 && states[0] == st && states[|args|] == r.st
            && forall i | 0 <= i < |args| :: EvalExpr(w, tab, args[i], states[i]) == Val(r.vs[i], states[i + 1])
    decreases args
  {
    if args == [] {
      states := [st];
    } else {
      var q := EvalExpr(w, tab, args[0], st);
      var rest := ArgumentsInOrder(w, tab, args[1..], q.st);
      states := [st] + rest;
      var r := EvalArgs(w, tab, args, st);
      assert r.vs == [q.v] + EvalArgs(w, tab, args[1..], q.st).vs;
      forall i | 0 <= i < |args| ensures EvalExpr(w, tab, args[i], states[i]) == Val(r.vs[i], states[i + 1]) {
        if i > 0 {
          assert args[1..][i - 1] == args[i];
        }
      }
    }
  }
}
