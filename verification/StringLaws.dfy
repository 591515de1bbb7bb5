/** What the operators on numbers and strings mean, for trees of string constants with and without caches. */
module StringLaws {
  import opened Tagged
  import opened Ast
  import Runtime
  import opened StringConstants
  import Interpreter
  import OperatorLaws

  /** String literals joined by `+`, in any grouping. */
  predicate Joins(e: Tree) {
    match e
    case Text(_) => true
    case Operator(op, l, r) => op.Add? && Joins(l) && Joins(r)
    case _ => false
  }

  /** The literals from left to right. */
  function Literals(e: Tree): seq<string>
    requires Joins(e)
  {
    match e
    case Text(s) => [s]
    case Operator(_, l, r) => Literals(l) + Literals(r)
  }

  function Joined(texts: seq<string>): string {
    if texts == [] then "" else texts[0] + Joined(texts[1..])
  }

  lemma {:induction false} JoinedAppend(a: seq<string>, b: seq<string>)
    ensures Joined(a + b) == Joined(a) + Joined(b)
    decreases a
  {
    if a == [] {
      assert a + b == b;
    } else {
      assert (a + b)[1..] == a[1..] + b;
      JoinedAppend(a[1..], b);
    }
  }

  lemma OneText(s: string)
    ensures Joined([s]) == s
  {
    assert [s][1..] == [];
  }

  /** However it is grouped, a sum of literals is a new string: the literals one behind the other. */
  lemma {:induction false} SumsOfTexts(p: Program, depth: nat, n: Node, e: Tree, env: Env, heap: seq<Object>)
    requires Joins(e)
    ensures var r := Plain(p, depth, n, e, env, heap);
            && r.Got? && r.v.Str? && |heap| <= r.v.ref < |r.heap| && heap <= r.heap
            && r.heap[r.v.ref].chars == Joined(Literals(e))
    decreases e
  {
    match e
    case Text(s) => OneText(s);
    case Operator(op, l, r) =>
      SumsOfTexts(p, depth, Below(n, 0), l, env, heap);
      var left := Plain(p, depth, Below(n, 0), l, env, heap);
      SumsOfTexts(p, depth, Below(n, 1), r, env, left.heap);
      var right := Plain(p, depth, Below(n, 1), r, env, left.heap);
      assert right.heap[left.v.ref] == left.heap[left.v.ref];
      JoinedAppend(Literals(l), Literals(r));
  }

  /** Arithmetic on number literals is that of the interpreter. */
  lemma NumbersAreInterpreted(
    w: Runtime.World, tab: Runtime.Table, st: Runtime.State, p: Program, depth: nat, n: Node, op: ArithOp,
    a: int, b: int, env: Env, heap: seq<Object>)
    requires Fits(a) && Fits(b)
    ensures Plain(p, depth, n, Operator(op, Tree.Number(a), Tree.Number(b)), env, heap)
         == match Interpreter.EvalExpr(w, tab, Binary(Arithmetic(op), Expr.Number(a), Expr.Number(b)), st)
            case Val(v, _) => Got(Int(Shr3(v)), heap)
            case EvalFault => Stuck
  {
    OperatorLaws.NumberWord(a);
    OperatorLaws.NumberWord(b);
  }

  /** The word of a value, with string `i` at address `place(i)`. */
  function WordOf(v: Value, place: nat -> Word): Word {
    match v
    case Int(n) => Encode(n)
    case Null => 0
    case Str(i) => place(i)
  }

  /** Strings have addresses of their own, and no number is one. */
  ghost predicate Apart(place: nat -> Word, l: Value, r: Value) {
    && (forall i: nat :: place(i) != 0 && place(i) % 8 == 0)
    && (forall i: nat, j: nat | place(i) == place(j) :: i == j)
    && (l.Int? ==> Fits(l.n) && forall i: nat :: Shr3(place(i)) != l.n)
    && (r.Int? ==> Fits(r.n) && forall i: nat :: Shr3(place(i)) != r.n)
  }

  /** `==` on values is the interpreter's comparison of their words. */
  lemma EqualIsInterpreted(l: Value, r: Value, place: nat -> Word)
    requires Apart(place, l, r)
    ensures Equal(l, r) <==> ShiftedCompare(Eq, WordOf(l, place), WordOf(r, place))
  {
    if l.Int? {
      OperatorLaws.NumberWord(l.n);
    }
    if r.Int? {
      OperatorLaws.NumberWord(r.n);
    }
    if l.Str? && r.Str? {
      SameAddress(place(l.ref), place(r.ref));
    }
  }

  lemma SameAddress(a: Word, b: Word)
    requires a % 8 == 0 && b % 8 == 0
    ensures Shr3(a) == Shr3(b) <==> a == b
  {
    assert Signed(a) == 8 * Shr3(a) && Signed(b) == 8 * Shr3(b);
  }

  /** A constant that has been evaluated, to anything but null, is not evaluated again: it keeps its value for good. */
  lemma EvaluatedOnce(
    p: Program, depth: nat, n: Node, e: Tree, env: Env, s: Store, later: Store, depth': nat, env': Env)
    requires IsConstant(e) && Cached(p, depth, n, e, env, s).Found? && !Cached(p, depth, n, e, env, s).v.Null?
    requires var c := Cached(p, depth, n, e, env, s).s.caches; n in c ==> n in later.caches && later.caches[n] == c[n]
    requires forall m | m in s.caches :: !s.caches[m].Null?
    ensures Cached(p, depth', n, e, env', later) == Found(Cached(p, depth, n, e, env, s).v, later)
  {
  }
}
