/**
 The value cache in expression nodes: constant expressions are evaluated once.
 Nodes are named by their path from the root of an expression.
 */
module ConstantCache {
  import opened Tagged
  import opened Ast
  import opened Runtime
  import opened Interpreter

  type Path = seq<nat>

  /** The i-th subexpression that evaluation descends into. */
  function Child(e: Expr, i: nat): (r: Option<Expr>)
    ensures r.Some? ==> r.value < e
  {
    match e
    case Binary(_, l, r) => if i == 0 then Some(l) else if i == 1 then Some(r) else None
    case MethodCall(_, callee, _, args) =>
      if i == 0 then Some(callee) else if i <= |args| then Some(args[i - 1]) else None
    case ClosureCall(callee, args) =>
      if i == 0 then Some(callee) else if i <= |args| then Some(args[i - 1]) else None
    case _ => None
  }

  function NodeAt(e: Expr, p: Path): Option<Expr>
    decreases |p|
  {
    if p == [] then Some(e)
    else
      match NodeAt(e, p[..|p| - 1])
      case None => None
      case Some(parent) => Child(parent, p[|p| - 1])
  }

  /** Literals, and operators on constants. */
  predicate IsConstant(e: Expr) {
    match e
    case Number(_) => true
    case Binary(_, l, r) => IsConstant(l) && IsConstant(r)
    case _ => false
  }

  /** The value of a constant, without any context. */
  function ConstantValue(e: Expr): (c: Checked)
    requires IsConstant(e)
    ensures c.Fine? ==> IsInteger(c.w)
  {
    match e
    case Number(n) =>
      NumberIsInteger(n);
      Fine(Encode(n))
    case Binary(op, l, r) =>
      (match (ConstantValue(l), ConstantValue(r))
       case (Fine(lv), Fine(rv)) => OperatorValue(op, lv, rv)
       case _ => Trapped)
  }

  function OperatorValue(op: BinOp, l: Word, r: Word): (c: Checked)
    ensures c.Fine? ==> IsInteger(c.w)
  {
    match op
    case Comparison(c) =>
      NumberIsInteger(0);
      NumberIsInteger(1);
      Fine(Bool(ShiftedCompare(c, l, r)))
    case Arithmetic(a) =>
      if a.Div? && Shr3(r) == 0 then Trapped
      else
        NumberIsInteger(RawArith(a, Shr3(l), Shr3(r)));
        TaggedArith(a, l, r)
  }

  lemma NumberIsInteger(n: int)
    ensures IsInteger(Encode(n))
  {
    assert Wrap(8 * n) % 8 == 0 by {
      var k := 8 * n / TWO_64;
      assert Wrap(8 * n) == 8 * (n - TWO_61 * k);
    }
  }

  /** A constant evaluates to its value in every context and leaves no trace: no overload, no profile, no store. */
  lemma {:induction false} ConstantIsContextFree(w: World, tab: Table, e: Expr, st: State)
    requires IsConstant(e)
    ensures EvalExpr(w, tab, e, st) == FromChecked(ConstantValue(e), st)
    decreases e
  {
    match e
    case Number(_) =>
    case Binary(op, l, r) =>
      ConstantIsContextFree(w, tab, l, st);
      ConstantIsContextFree(w, tab, r, st);
  }

  /** At the end of a path evaluation meets a number literal, an operator, or nothing. */
  predicate IsPlain(e: Expr, p: Path) {
    match NodeAt(e, p)
    case None => true
    case Some(node) => node.Number? || node.Binary?
  }

  /** The constants are the expressions in which evaluation meets nothing but number literals and operators. */
  lemma {:induction false} ConstantExactlyWhen(e: Expr)
    ensures IsConstant(e) <==> forall p :: IsPlain(e, p)
    decreases e
  {
    assert IsPlain(e, []) <==> e.Number? || e.Binary?;
    match e
    case Binary(_, l, r) =>
      ConstantExactlyWhen(l);
      ConstantExactlyWhen(r);
      forall p ensures IsPlain(e, [0] + p) <==> IsPlain(l, p) {
        NodeBelow(e, 0, p);
      }
      forall p ensures IsPlain(e, [1] + p) <==> IsPlain(r, p) {
        NodeBelow(e, 1, p);
      }
      forall p | NodeAt(e, p).Some? && p != [] ensures p == [0] + p[1..] || p == [1] + p[1..] {
        FirstStep(e, p);
      }
      if IsConstant(e) {
        forall p ensures IsPlain(e, p) {
          if NodeAt(e, p).Some? && p != [] {
            assert IsPlain(l, p[1..]) && IsPlain(r, p[1..]);
          }
        }
      }
    case Number(_) =>
      forall p ensures IsPlain(e, p) {
        if NodeAt(e, p).Some? && p != [] {
          FirstStep(e, p);
        }
      }
    case _ =>
  }

  lemma {:induction false} NodeBelow(e: Expr, i: nat, p: Path)
    requires Child(e, i).Some?
    ensures NodeAt(e, [i] + p) == NodeAt(Child(e, i).value, p)
    decreases |p|
  {
    var n := |p|;
    if p == [] {
      assert [i] + p == [i] && [i][..0] == [];
    } else {
      assert ([i] + p)[..n] == [i] + p[..n - 1];
      NodeBelow(e, i, p[..n - 1]);
    }
  }

  /** A path to a node begins with a step to a child. */
  lemma {:induction false} FirstStep(e: Expr, p: Path)
    requires p != [] && NodeAt(e, p).Some?
    ensures Child(e, p[0]).Some? && p == [p[0]] + p[1..]
    decreases |p|
  {
    if |p| > 1 {
      FirstStep(e, p[..|p| - 1]);
    } else {
      assert p[..0] == [];
    }
  }

  /** Every cached word belongs to a constant node and is its value. */
  ghost predicate Faithful(root: Expr, caches: map<Path, Word>) {
    forall p | p in caches ::
      && NodeAt(root, p).Some? && IsConstant(NodeAt(root, p).value)
      && ConstantValue(NodeAt(root, p).value) == Fine(caches[p])
  }

  /** The nodes of one expression, with their caches; a null cache is an absent one. */
  class CachedTree {
    const root: Expr
    var caches: map<Path, Word>

    constructor (e: Expr)
      ensures root == e && caches == map[]
    {
      root, caches := e, map[];
    }

    ghost predicate Valid()
      reads this
    {
      Faithful(root, caches)
    }

    /**
     Evaluation through the caches, whatever was evaluated before, is evaluation
     without them; caches stay faithful, and a constant that has a value is cached.
     */
    method Evaluate(w: World, tab: Table, e: Expr, p: Path, st: State) returns (r: EvalResult)
      requires Valid() && NodeAt(root, p) == Some(e)
      modifies this
      ensures Valid() && old(caches).Keys <= caches.Keys
      ensures r == EvalExpr(w, tab, e, st)
      ensures IsConstant(e) && r.Val? ==> p in caches && caches[p] == r.v
      decreases e, 1
    {
      if p in caches {
        ConstantIsContextFree(w, tab, e, st);
        return Val(caches[p], st);
      }
      r := EvaluateNode(w, tab, e, p, st);
      if IsConstant(e) {
        ConstantIsContextFree(w, tab, e, st);
        if r.Val? {
          caches := caches[p := r.v];
        }
      }
    }

    method EvaluateNode(w: World, tab: Table, e: Expr, p: Path, st: State) returns (r: EvalResult)
      requires Valid() && NodeAt(root, p) == Some(e)
      modifies this
      ensures Valid() && old(caches).Keys <= caches.Keys
      ensures r == EvalExpr(w, tab, e, st)
      decreases e, 0
    {
      match e
      case Binary(op, l, right) =>
        r := EvaluateChild(w, tab, e, p, 0, st);
        if r.Val? {
          var lv := r.v;
          r := EvaluateChild(w, tab, e, p, 1, r.st);
          if r.Val? {
            r := PerformOp(w, op, lv, r.v, r.st);
          }
        }
      case MethodCall(site, callee, sel, args) =>
        r := EvaluateChild(w, tab, e, p, 0, st);
        if r.Val? {
          var obj := r.v;
          if obj == 0 {
            return EvalFault;
          }
          var vs := EvaluateArgs(w, tab, e, p, args, r.st);
          r := match vs
               case ArgsFault => EvalFault
               case Vals(vs, st1) => Dispatch(w, site, sel, obj, vs, st1);
        }
      case ClosureCall(callee, args) =>
        r := EvaluateChild(w, tab, e, p, 0, st);
        if r.Val? {
          var obj := r.v;
          if obj == 0 {
            return EvalFault;
          }
          var vs := EvaluateArgs(w, tab, e, p, args, r.st);
          r := match vs
               case ArgsFault => EvalFault
               case Vals(vs, st1) => FromCall(w.closure(st1, obj, vs));
        }
      case _ => r := EvalExpr(w, tab, e, st);
    }

    method EvaluateChild(w: World, tab: Table, e: Expr, p: Path, i: nat, st: State) returns (r: EvalResult)
      requires Valid() && NodeAt(root, p) == Some(e) && Child(e, i).Some?
      modifies this
      ensures Valid() && old(caches).Keys <= caches.Keys
      ensures r == EvalExpr(w, tab, Child(e, i).value, st)
      decreases e, 0, 0
    {
      assert (p + [i])[..|p|] == p;
      r := Evaluate(w, tab, Child(e, i).value, p + [i], st);
    }

    /** The argument loop. */
    method EvaluateArgs(w: World, tab: Table, e: Expr, p: Path, args: seq<Expr>, st: State) returns (r: ArgsResult)
      requires Valid() && NodeAt(root, p) == Some(e)
      requires (e.MethodCall? || e.ClosureCall?) && e.args == args
      modifies this
      ensures Valid() && old(caches).Keys <= caches.Keys
      ensures r == EvalArgs(w, tab, args, st)
      decreases e, 0, 1
    {
      var i := 0;
      r := Vals([], st);
      while i < |args|
        invariant 0 <= i <= |args| && r.Vals? && Valid() && old(caches).Keys <= caches.Keys
        invariant EvalArgs(w, tab, args, st) == Prefixed(r.vs, EvalArgs(w, tab, args[i..], r.st))
      {
        var v := EvaluateChild(w, tab, e, p, i + 1, r.st);
        if v.EvalFault? {
          return ArgsFault;
        }
        assert args[i..][1..] == args[i + 1..];
        PrefixedTwice(r.vs, v.v, EvalArgs(w, tab, args[i + 1..], v.st));
        r := Vals(r.vs + [v.v], v.st);
        i := i + 1;
      }
      assert r.vs + [] == r.vs;
    }
  }
}
