/** The expression trees of the arithmetic pass beside the interpreter: their value by helpers is their value. */
module InterpretedTrees {
  import opened Tagged
  import opened Ast
  import opened Runtime
  import opened Interpreter
  import opened ExpressionTrees
  import opened RewrittenTrees
  import ArithmeticBlocks
  import FastPath
  import Ir

  type Env = FastPath.Env

  /** The expression a tree is compiled from: its variables are those that it loads, by the place of the load. */
  function AsExpr(t: Tree, base: nat, name: nat -> string): Expr {
    match t
    case Variable => VarRef(name(base))
    case Literal(w) => Number(Shr3(w))
    case Node(op, l, r) => Binary(Arithmetic(op), AsExpr(l, base, name), AsExpr(r, base + Size(l), name))
  }

  /** The load at place `k` finds the integer that the variable holds. */
  predicate LoadsInteger(tab: Table, st: State, name: nat -> string, env: Env, k: nat) {
    var v := ArithmeticBlocks.Value.Loaded(k);
    v in env && IsInteger(env[v]) && LookupSymbol(tab, st, name(k)) == env[v]
  }

  /** On integers the chain of helper calls computes what the interpreter does, or fails where it does. */
  lemma {:induction false} ValueIsInterpreted(
    w: World, tab: Table, st: State, call: FastPath.Overload, t: Tree, base: nat, name: nat -> string, env: Env)
    requires IntegerLiterals(t) && forall k: nat :: LoadsInteger(tab, st, name, env, k)
    ensures EvalExpr(w, tab, AsExpr(t, base, name), st) == FromChecked(ValueOf(call, t, base, env), st)
    ensures var v := ValueOf(call, t, base, env); v.Fine? ==> IsInteger(v.w)
    decreases t
  {
    match t
    case Variable => assert LoadsInteger(tab, st, name, env, base);
    case Literal(word) => Retagged(word);
    case Node(op, l, r) =>
      ValueIsInterpreted(w, tab, st, call, l, base, name, env);
      ValueIsInterpreted(w, tab, st, call, r, base + Size(l), name, env);
      var lv, rv := ValueOf(call, l, base, env), ValueOf(call, r, base + Size(l), env);
      if lv.Fine? && rv.Fine? {
        ResultIsInteger(op, lv.w, rv.w);
      }
  }

  lemma Retagged(w: Word)
    requires IsInteger(w)
    ensures Encode(Shr3(w)) == w
  {
    assert Signed(w) == 8 * Shr3(w) + 1;
  }

  lemma ResultIsInteger(op: ArithOp, l: Word, r: Word)
    ensures var v := TaggedArith(op, l, r); v.Fine? ==> IsInteger(v.w)
  {
    if !(op.Div? && Shr3(r) == 0) {
      EncodeDecode(RawArith(op, Shr3(l), Shr3(r)));
    }
  }

  /** The helpers of the pass are those that compiled code calls. */
  lemma HelpersAreTheSame(w: World, op: ArithOp, l: Word, r: Word, st: State, call: FastPath.Overload)
    requires w.overload(op, st, l, r) == match call(op, l, r) case Fine(v) => Ret(v, st) case Trapped => Fault
    ensures Ir.RunHelper(w, op, l, r, st)
         == match FastPath.Helper(call, op, l, r) case Fine(v) => Ret(v, st) case Trapped => Fault
  {
  }
}
