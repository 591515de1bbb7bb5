/**
 What the operators of the language compute, in the arithmetic and the order of the
 integers: the interpreter's evaluation of `l + r` and its siblings, on the values of
 any two expressions, and the helpers that compiled code calls.
 */
module OperatorLaws {
  import opened Tagged
  import opened Ast
  import opened Runtime
  import opened Interpreter
  import opened Ir

  /** The word of a number: eight times the number and one, in two's complement. */
  lemma NumberWord(i: int)
    requires Fits(i)
    ensures Encode(i) == if i >= 0 then 8 * i + 1 else 0x1_0000_0000_0000_0001 + 8 * i
    ensures IsInteger(Encode(i)) && Shr3(Encode(i)) == i
  {
    EncodeDecode(i);
  }

  /** Null and zero are false, all other numbers and all objects are true. */
  lemma Truth(i: int, obj: Word)
    requires Fits(i) && obj % 8 == 0
    ensures Truthy(Encode(i)) <==> i != 0
    ensures Truthy(obj) <==> obj != 0
  {
    NumberWord(i);
  }

  /** The operands of a binary expression, evaluated from left to right, are numbers. */
  predicate Operands(w: World, tab: Table, l: Expr, r: Expr, st: State, st1: State, st2: State, a: int, b: int) {
    && Fits(a) && Fits(b)
    && EvalExpr(w, tab, l, st) == Val(Encode(a), st1) && EvalExpr(w, tab, r, st1) == Val(Encode(b), st2)
  }

  lemma Literals(w: World, tab: Table, a: int, b: int, st: State)
    requires Fits(a) && Fits(b)
    ensures Operands(w, tab, Number(a), Number(b), st, st, st, a, b)
  {
  }

  /** A number that the tag leaves room for, or a failed assertion. */
  predicate Yields(r: EvalResult, i: int, st: State) {
    r == if Fits(i) then Val(Encode(i), st) else EvalFault
  }

  lemma SumsAndDifferences(
    w: World, tab: Table, l: Expr, r: Expr, st: State, st1: State, st2: State, a: int, b: int)
    requires Operands(w, tab, l, r, st, st1, st2, a, b)
    ensures Yields(EvalExpr(w, tab, Binary(Arithmetic(Add), l, r), st), a + b, st2)
    ensures Yields(EvalExpr(w, tab, Binary(Arithmetic(Sub), l, r), st), a - b, st2)
  {
    NumberWord(a);
    NumberWord(b);
    WrapIsExact(a + b);
    WrapIsExact(a - b);
  }

  lemma WrapIsExact(i: int)
    requires -TWO_63 <= i < TWO_63
    ensures Signed(Wrap(i)) == i
  {
  }

  /** The product as 64-bit arithmetic leaves it: the product itself wherever that is a 64-bit number. */
  lemma Products(w: World, tab: Table, l: Expr, r: Expr, st: State, st1: State, st2: State, a: int, b: int)
    returns (p: int)
    requires Operands(w, tab, l, r, st, st1, st2, a, b)
    ensures -TWO_63 <= p < TWO_63 && (p - a * b) % TWO_64 == 0
    ensures -TWO_63 <= a * b < TWO_63 ==> p == a * b
    ensures Yields(EvalExpr(w, tab, Binary(Arithmetic(Mul), l, r), st), p, st2)
  {
    NumberWord(a);
    NumberWord(b);
    p := Signed(Wrap(a * b));
    WrapIsCongruent(a * b);
    if -TWO_63 <= a * b < TWO_63 {
      WrapIsExact(a * b);
    }
  }

  lemma WrapIsCongruent(i: int)
    ensures (Signed(Wrap(i)) - i) % TWO_64 == 0
  {
    var k := i / TWO_64;
    assert i == TWO_64 * k + Wrap(i);
    assert Signed(Wrap(i)) - i == TWO_64 * (if Wrap(i) < TWO_63 then -k else -k - 1);
  }

  /** The range assertion does not see a product that wraps: `4294967296 * 4294967296` is zero. */
  lemma ProductWraps(w: World, tab: Table, st: State)
    ensures EvalExpr(w, tab, Binary(Arithmetic(Mul), Number(0x1_0000_0000), Number(0x1_0000_0000)), st)
         == Val(Encode(0), st)
  {
    var a := 0x1_0000_0000;
    Literals(w, tab, a, a, st);
    NumberWord(a);
    NumberWord(0);
    assert a * a == TWO_64;
    assert Wrap(a * a) == 0;
  }

  /** The quotient is rounded toward zero; a division by zero fails. */
  lemma Quotients(w: World, tab: Table, l: Expr, r: Expr, st: State, st1: State, st2: State, a: int, b: int)
    returns (q: int, m: int)
    requires Operands(w, tab, l, r, st, st1, st2, a, b)
    ensures if b == 0 then EvalExpr(w, tab, Binary(Arithmetic(Div), l, r), st) == EvalFault
            else
              && a == q * b + m && (if b < 0 then b < m < -b else -b < m < b)
              && (m != 0 ==> (m < 0 <==> a < 0))
              && Yields(EvalExpr(w, tab, Binary(Arithmetic(Div), l, r), st), q, st2)
  {
    OnNumbers(w, tab, Arithmetic(Div), l, r, st, st1, st2, a, b);
    q, m := WordsDivided(a, b);
  }

  lemma OnNumbers(
    w: World, tab: Table, op: BinOp, l: Expr, r: Expr, st: State, st1: State, st2: State, a: int, b: int)
    requires Operands(w, tab, l, r, st, st1, st2, a, b)
    ensures EvalExpr(w, tab, Binary(op, l, r), st)
         == match op
            case Arithmetic(f) => FromChecked(TaggedArith(f, Encode(a), Encode(b)), st2)
            case Comparison(c) => Val(Bool(Compare(c, a, b)), st2)
  {
    NumberWord(a);
    NumberWord(b);
  }

  lemma WordsDivided(a: int, b: int) returns (q: int, m: int)
    requires Fits(a) && Fits(b)
    ensures b == 0 ==> TaggedArith(Div, Encode(a), Encode(b)) == Trapped
    ensures b != 0 ==>
              && a == q * b + m && (if b < 0 then b < m < -b else -b < m < b) && (m != 0 ==> (m < 0 <==> a < 0))
              && TaggedArith(Div, Encode(a), Encode(b)) == if Fits(q) then Fine(Encode(q)) else Trapped
  {
    NumberWord(a);
    NumberWord(b);
    q, m := 0, 0;
    if b != 0 {
      q, m := Division(a, b);
      WrapIsExact(q);
    }
  }

  lemma Division(a: int, b: int) returns (q: int, m: int)
    requires b != 0
    ensures q == TruncDiv(a, b) && a == q * b + m && (if b < 0 then b < m < -b else -b < m < b)
    ensures m != 0 ==> (m < 0 <==> a < 0)
    ensures (if q < 0 then -q else q) <= (if a < 0 then -a else a)
  {
    var n, d := if a < 0 then -a else a, if b < 0 then -b else b;
    var e: int, f: int := QuotientAndRest(n, d);
    q := TruncDiv(a, b);
    m := if a < 0 then -f else f;
    assert q == if (a < 0) == (b < 0) then e else -e;
    Signs(e, d, q, b, (a < 0) == (b < 0));
  }

  lemma QuotientAndRest(n: int, d: int) returns (e: int, f: int)
    requires n >= 0 && d > 0
    ensures e == n / d && n == e * d + f && 0 <= f < d && 0 <= e <= n
  {
    e, f := n / d, n % d;
    NotLess(e, d);
  }

  lemma {:induction false} NotLess(e: int, d: int)
    requires e >= 0 && d > 0
    ensures e <= e * d
    decreases d
  {
    if d > 1 {
      NotLess(e, d - 1);
      assert e * d == e * (d - 1) + e;
    }
  }

  lemma Signs(e: int, d: int, q: int, b: int, same: bool)
    requires (q == if same then e else -e) && (b == d || b == -d)
    ensures q * b == if same == (b == d) then e * d else -(e * d)
  {
    assert e * -d == -(e * d) && -e * d == -(e * d) && -e * -d == e * d;
  }

  /** Comparisons are those of the numbers, and answer one or zero. */
  lemma Comparisons(w: World, tab: Table, l: Expr, r: Expr, st: State, st1: State, st2: State, a: int, b: int)
    requires Operands(w, tab, l, r, st, st1, st2, a, b)
    ensures EvalExpr(w, tab, Binary(Comparison(Eq), l, r), st) == Val(if a == b then 9 else 1, st2)
    ensures EvalExpr(w, tab, Binary(Comparison(Ne), l, r), st) == Val(if a != b then 9 else 1, st2)
    ensures EvalExpr(w, tab, Binary(Comparison(Lt), l, r), st) == Val(if a < b then 9 else 1, st2)
    ensures EvalExpr(w, tab, Binary(Comparison(Gt), l, r), st) == Val(if a > b then 9 else 1, st2)
    ensures EvalExpr(w, tab, Binary(Comparison(Le), l, r), st) == Val(if a <= b then 9 else 1, st2)
    ensures EvalExpr(w, tab, Binary(Comparison(Ge), l, r), st) == Val(if a >= b then 9 else 1, st2)
    ensures Encode(1) == 9 && Encode(0) == 1
  {
    forall c: CmpOp ensures EvalExpr(w, tab, Binary(Comparison(c), l, r), st) == Val(Bool(Compare(c, a, b)), st2) {
      OnNumbers(w, tab, Comparison(c), l, r, st, st1, st2, a, b);
    }
    NumberWord(1);
    NumberWord(0);
  }

  /** Unless both operands are numbers, the interpreter calls the left one's method. */
  lemma Overloads(
    w: World, tab: Table, op: ArithOp, l: Expr, r: Expr, st: State, st1: State, st2: State, lv: Word, rv: Word)
    requires EvalExpr(w, tab, l, st) == Val(lv, st1) && EvalExpr(w, tab, r, st1) == Val(rv, st2)
    requires lv % 8 != 1 || rv % 8 != 1
    ensures EvalExpr(w, tab, Binary(Arithmetic(op), l, r), st)
         == match w.overload(op, st2, lv, rv) case Ret(v, st3) => Val(v, st3) case Fault => EvalFault
  {
  }

  /** The helpers of compiled code compute the same on numbers; anything but a number on the left is called. */
  lemma HelpersCompute(w: World, tab: Table, op: ArithOp, a: int, b: int, obj: Word, r: Word, st: State)
    requires Fits(a) && Fits(b) && !IsInteger(obj)
    ensures FromCall(RunHelper(w, op, Encode(a), Encode(b), st))
         == EvalExpr(w, tab, Binary(Arithmetic(op), Number(a), Number(b)), st)
    ensures RunHelper(w, op, obj, r, st) == w.overload(op, st, obj, r)
    ensures RunHelper(w, op, Encode(a), obj, st) == Fault
  {
    NumberWord(a);
    NumberWord(b);
  }
}
