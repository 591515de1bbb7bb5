/**
 Lowering of a block of arithmetic calls: the slow path is the chain of runtime
 helpers on tagged words, the fast path computes on untagged 64-bit integers and
 tags the last result once.
 */
module FastPath {
  import opened Tagged
  import opened ArithmeticBlocks

  /** An operand is computed earlier in the block, comes from outside, or is a constant word. */
  datatype Operand = Computed(index: nat) | Outside(name: Value) | Constant(w: Word)

  datatype Call = Call(op: ArithOp, lhs: Operand, rhs: Operand)

  type Block = seq<Call>

  /** Words of the values that come from outside. */
  type Env = map<Value, Word>

  predicate OperandOk(o: Operand, i: nat, env: Env) {
    match o
    case Computed(j) => j < i
    case Outside(x) => x in env
    case Constant(_) => true
  }

  /** Operands are defined before they are used. */
  predicate WellFormed(b: Block, env: Env) {
    forall i | 0 <= i < |b| :: OperandOk(b[i].lhs, i, env) && OperandOk(b[i].rhs, i, env)
  }

  predicate UsedIn(b: Block, o: Operand) {
    exists i | 0 <= i < |b| :: b[i].lhs == o || b[i].rhs == o
  }

  /** Everything from outside is tested by the guard, and constants are integers. */
  ghost predicate Covered(b: Block, checked: set<Value>) {
    && (forall x | UsedIn(b, Outside(x)) :: x in checked)
    && (forall w | UsedIn(b, Constant(w)) :: IsInteger(w))
  }

  /** Everything from outside is tested by the guard or an integer anyway, and constants are integers. */
  ghost predicate Safe(b: Block, checked: set<Value>, env: Env) {
    && (forall x | UsedIn(b, Outside(x)) :: x in checked || (x in env && IsInteger(env[x])))
    && (forall w | UsedIn(b, Constant(w)) :: IsInteger(w))
  }

  predicate ValidEnv(env: Env) {
    forall x | x in env :: Tag(env[x]) == 0 || IsInteger(env[x])
  }

  /** The conjunction of the low bits of the checked words. */
  predicate Guard(checked: set<Value>, env: Env) {
    forall x | x in checked && x in env :: env[x] % 2 == 1
  }

  /* ---- The slow path ---- */

  /** What an overloaded operator answers for a left operand that is no integer. */
  type Overload = (ArithOp, Word, Word) -> Checked

  /** `mysoreScriptAdd` and its siblings: the left operand decides, the right one is asserted. */
  function Helper(call: Overload, op: ArithOp, l: Word, r: Word): Checked {
    if !IsInteger(l) then call(op, l, r)
    else if !IsInteger(r) then Trapped
    else TaggedArith(op, l, r)
  }

  function WordOf(o: Operand, done: seq<Word>, env: Env): Word
    requires OperandOk(o, |done|, env)
  {
    match o
    case Computed(j) => done[j]
    case Outside(x) => env[x]
    case Constant(w) => w
  }

  /** The results of the first `n` helper calls, if none of them traps. */
  datatype Words = Words(ws: seq<Word>) | Stopped

  function Slow(call: Overload, b: Block, env: Env, n: nat): (r: Words)
    requires WellFormed(b, env) && n <= |b|
    ensures r.Words? ==> |r.ws| == n
  {
    if n == 0 then Words([])
    else
      match Slow(call, b, env, n - 1)
      case Stopped => Stopped
      case Words(ws) =>
        match Helper(call, b[n - 1].op, WordOf(b[n - 1].lhs, ws, env), WordOf(b[n - 1].rhs, ws, env))
        case Fine(w) => Words(ws + [w])
        case Trapped => Stopped
  }

  function SlowResult(call: Overload, b: Block, env: Env): Checked
    requires WellFormed(b, env) && b != []
  {
    match Slow(call, b, env, |b|)
    case Words(ws) => Fine(ws[|b| - 1])
    case Stopped => Trapped
  }

  /* ---- The fast path ---- */

  function IntOf(o: Operand, done: seq<int>, env: Env): int
    requires OperandOk(o, |done|, env)
  {
    match o
    case Computed(j) => done[j]
    case Outside(x) => Shr3(env[x])
    case Constant(w) => Shr3(w)
  }

  datatype Ints = Ints(vals: seq<int>) | DivisionByZero

  function Fast(b: Block, env: Env, n: nat): (r: Ints)
    requires WellFormed(b, env) && n <= |b|
    ensures r.Ints? ==> |r.vals| == n
  {
    if n == 0 then Ints([])
    else
      match Fast(b, env, n - 1)
      case DivisionByZero => DivisionByZero
      case Ints(vals) =>
        var l := IntOf(b[n - 1].lhs, vals, env);
        var r := IntOf(b[n - 1].rhs, vals, env);
        if b[n - 1].op.Div? && r == 0 then DivisionByZero
        else Ints(vals + [RawArith(b[n - 1].op, l, r)])
  }

  function FastResult(b: Block, env: Env): Checked
    requires WellFormed(b, env) && b != []
  {
    match Fast(b, env, |b|)
    case Ints(vals) => Fine(Encode(vals[|b| - 1]))
    case DivisionByZero => Trapped
  }

  /* ---- Refinement ---- */

  predicate AllFit(vals: seq<int>) {
    forall i | 0 <= i < |vals| :: Fits(vals[i])
  }

  /** Every result along the fast path is a 61-bit integer. */
  predicate NoOverflow(b: Block, env: Env)
    requires WellFormed(b, env)
  {
    var r := Fast(b, env, |b|);
    r.Ints? && AllFit(r.vals)
  }

  /** When the guard passes, every operand of a safe block from outside is an integer. */
  lemma GuardedOperandIsInteger(b: Block, env: Env, checked: set<Value>, o: Operand, i: nat)
    requires WellFormed(b, env) && ValidEnv(env) && Safe(b, checked, env) && Guard(checked, env)
    requires i < |b| && (b[i].lhs == o || b[i].rhs == o)
    ensures o.Outside? ==> o.name in env && IsInteger(env[o.name])
    ensures o.Constant? ==> IsInteger(o.w)
  {
    assert OperandOk(b[i].lhs, i, env) && OperandOk(b[i].rhs, i, env);
    assert UsedIn(b, o);
  }

  lemma RawArithRange(op: ArithOp, l: int, r: int)
    requires op.Div? ==> r != 0
    ensures -TWO_63 <= RawArith(op, l, r) < TWO_63
  {
  }

  ghost predicate InStep(ws: seq<Word>, vals: seq<int>) {
    && |ws| == |vals|
    && forall i | 0 <= i < |ws| :: ws[i] == Encode(vals[i]) && IsInteger(ws[i]) && Shr3(ws[i]) == vals[i]
  }

  /**
   On integers, step by step, the slow path's words are the tagged integers of
   the fast path, until one does not fit.
   */
  lemma {:induction false} PathsInStep(call: Overload, b: Block, env: Env, checked: set<Value>, n: nat)
    requires WellFormed(b, env) && ValidEnv(env) && Safe(b, checked, env) && Guard(checked, env) && n <= |b|
    ensures var s := Slow(call, b, env, n);
            var f := Fast(b, env, n);
            && (s.Words? <==> f.Ints? && AllFit(f.vals))
            && (s.Words? ==> InStep(s.ws, f.vals))
    decreases n
  {
    if n > 0 {
      PathsInStep(call, b, env, checked, n - 1);
      PathsStayInStep(
        call, b, env, checked, n - 1, Slow(call, b, env, n - 1), Fast(b, env, n - 1), Slow(call, b, env, n),
        Fast(b, env, n));
    }
  }

  ghost predicate SameFate(s: Words, f: Ints) {
    (s.Words? <==> f.Ints? && AllFit(f.vals)) && (s.Words? ==> InStep(s.ws, f.vals))
  }

  lemma PathsStayInStep(
    call: Overload, b: Block, env: Env, checked: set<Value>, n: nat, s: Words, f: Ints, s': Words, f': Ints)
    requires WellFormed(b, env) && ValidEnv(env) && Safe(b, checked, env) && Guard(checked, env) && n < |b|
    requires s == Slow(call, b, env, n) && f == Fast(b, env, n) && SameFate(s, f)
    requires s' == Slow(call, b, env, n + 1) && f' == Fast(b, env, n + 1)
    ensures SameFate(s', f')
  {
    if f.Ints? && f'.Ints? {
      FastGrows(b, env, n);
      AllFitAppend(f.vals, f'.vals[n]);
    }
    if s.Words? {
      PathStep(call, b, env, checked, n, s.ws, f.vals);
      if s'.Words? {
        InStepAppend(s.ws, f.vals, f'.vals[n]);
      }
    }
  }

  lemma FastGrows(b: Block, env: Env, n: nat)
    requires WellFormed(b, env) && n < |b| && Fast(b, env, n).Ints? && Fast(b, env, n + 1).Ints?
    ensures Fast(b, env, n + 1).vals == Fast(b, env, n).vals + [Fast(b, env, n + 1).vals[n]]
  {
  }

  lemma AllFitAppend(vals: seq<int>, v: int)
    ensures AllFit(vals + [v]) <==> AllFit(vals) && Fits(v)
  {
    if AllFit(vals + [v]) {
      forall i | 0 <= i < |vals| ensures Fits(vals[i]) {
        assert (vals + [v])[i] == vals[i];
      }
      assert (vals + [v])[|vals|] == v;
    }
  }

  lemma InStepAppend(ws: seq<Word>, vals: seq<int>, v: int)
    requires InStep(ws, vals) && Shr3(Encode(v)) == v && IsInteger(Encode(v))
    ensures InStep(ws + [Encode(v)], vals + [v])
  {
  }

  /** One more call on operands that are in step. */
  lemma PathStep(
    call: Overload, b: Block, env: Env, checked: set<Value>, n: nat, ws: seq<Word>, vals: seq<int>)
    requires WellFormed(b, env) && ValidEnv(env) && Safe(b, checked, env) && Guard(checked, env) && n < |b|
    requires Slow(call, b, env, n) == Words(ws) && Fast(b, env, n) == Ints(vals) && InStep(ws, vals)
    ensures var f := Fast(b, env, n + 1);
            var s := Slow(call, b, env, n + 1);
            && (s.Words? <==> f.Ints? && Fits(f.vals[n]))
            && (f.Ints? ==> f.vals[..n] == vals)
            && (s.Words? ==> s.ws == ws + [Encode(f.vals[n])] && Shr3(s.ws[n]) == f.vals[n] && IsInteger(s.ws[n]))
  {
    var c := b[n];
    assert OperandOk(c.lhs, n, env) && OperandOk(c.rhs, n, env);
    OperandInStep(b, env, checked, n, c.lhs, ws, vals);
    OperandInStep(b, env, checked, n, c.rhs, ws, vals);
    var l, r := IntOf(c.lhs, vals, env), IntOf(c.rhs, vals, env);
    if !(c.op.Div? && r == 0) {
      RawArithRange(c.op, l, r);
      EncodeDecode(RawArith(c.op, l, r));
    }
  }

  lemma OperandInStep(
    b: Block, env: Env, checked: set<Value>, n: nat, o: Operand, ws: seq<Word>, vals: seq<int>)
    requires WellFormed(b, env) && ValidEnv(env) && Safe(b, checked, env) && Guard(checked, env)
    requires n < |b| && (b[n].lhs == o || b[n].rhs == o) && |ws| == |vals| == n
    requires InStep(ws, vals) && OperandOk(o, n, env)
    ensures IsInteger(WordOf(o, ws, env)) && Shr3(WordOf(o, ws, env)) == IntOf(o, vals, env)
  {
    GuardedOperandIsInteger(b, env, checked, o, n);
  }

  /** The value after the join of the two paths: the guard chooses. */
  function JoinResult(call: Overload, b: Block, env: Env, checked: set<Value>): Checked
    requires WellFormed(b, env) && b != []
  {
    if Guard(checked, env) then FastResult(b, env) else SlowResult(call, b, env)
  }

  /**
   The value after the join is that of the chain of helpers, whichever branch the
   guard takes, exactly when the guard fails, or no result along the way leaves
   61 bits, or a division by zero stops both paths.
   */
  lemma FastRefinesSlow(call: Overload, b: Block, env: Env, checked: set<Value>)
    requires WellFormed(b, env) && b != [] && ValidEnv(env) && Safe(b, checked, env)
    ensures JoinResult(call, b, env, checked) == SlowResult(call, b, env)
            <==> !Guard(checked, env) || NoOverflow(b, env) || Fast(b, env, |b|).DivisionByZero?
  {
    if Guard(checked, env) {
      PathsInStep(call, b, env, checked, |b|);
    }
  }

  /* ---- Wrap-around arithmetic ---- */

  /** The helpers without the range assertion: every result is truncated to 61 bits. */
  function WrappedArith(op: ArithOp, l: Word, r: Word): Checked {
    if op.Div? && Shr3(r) == 0 then Trapped else Fine(Encode(RawArith(op, Shr3(l), Shr3(r))))
  }

  function Wrapped(b: Block, env: Env, n: nat): (r: Words)
    requires WellFormed(b, env) && n <= |b|
    ensures r.Words? ==> |r.ws| == n
  {
    if n == 0 then Words([])
    else
      match Wrapped(b, env, n - 1)
      case Stopped => Stopped
      case Words(ws) =>
        match WrappedArith(b[n - 1].op, WordOf(b[n - 1].lhs, ws, env), WordOf(b[n - 1].rhs, ws, env))
        case Fine(w) => Words(ws + [w])
        case Trapped => Stopped
  }

  predicate NoDivision(b: Block) {
    forall i | 0 <= i < |b| :: !b[i].op.Div?
  }

  ghost predicate Congruent(x: int, y: int) {
    exists k: int :: x == y + TWO_61 * k
  }

  lemma CongruentBy(x: int, y: int, k: int)
    requires x == y + TWO_61 * k
    ensures Congruent(x, y)
  {
  }

  /** Truncation to 64 bits keeps the residue. */
  lemma TruncationIsCongruent(i: int)
    ensures Congruent(Signed(Wrap(i)), i)
  {
    var q := i / TWO_64;
    assert i == TWO_64 * q + Wrap(i);
    var k := if Wrap(i) < TWO_63 then -8 * q else -8 * q - 8;
    CongruentBy(Signed(Wrap(i)), i, k);
  }

  /** Tagging depends on the residue alone, and untagging gives it back. */
  lemma EncodeIsCongruent(i: int)
    ensures Congruent(Shr3(Encode(i)), i)
    ensures Encode(i) == 8 * (i % TWO_61) + 1
  {
    var q := i / TWO_61;
    var low := i % TWO_61;
    assert 8 * i == TWO_64 * q + 8 * low;
    assert Wrap(8 * i) == 8 * low by {
      assert 0 <= 8 * low < TWO_64;
    }
    assert Shr3(Encode(i)) == if low < TWO_60 then low else low - TWO_61;
    CongruentBy(Shr3(Encode(i)), i, if low < TWO_60 then -q else -q - 1);
  }

  lemma CongruentResidue(x: int, y: int)
    requires Congruent(x, y)
    ensures x % TWO_61 == y % TWO_61
  {
    var k :| x == y + TWO_61 * k;
    var q := y / TWO_61;
    assert y == TWO_61 * q + y % TWO_61;
    assert x == TWO_61 * (q + k) + y % TWO_61;
  }

  lemma CongruentTransitive(x: int, y: int, z: int)
    requires Congruent(x, y) && Congruent(y, z)
    ensures Congruent(x, z)
  {
    var j :| x == y + TWO_61 * j;
    var k :| y == z + TWO_61 * k;
    CongruentBy(x, z, j + k);
  }

  lemma CongruentSymmetric(x: int, y: int)
    requires Congruent(x, y)
    ensures Congruent(y, x)
  {
    var k :| x == y + TWO_61 * k;
    CongruentBy(y, x, -k);
  }

  lemma ProductIsCongruent(x: int, x': int, y: int, y': int)
    requires Congruent(x, x') && Congruent(y, y')
    ensures Congruent(x * y, x' * y')
  {
    var j :| x == x' + TWO_61 * j;
    var k :| y == y' + TWO_61 * k;
    var m := x' * k + j * y' + TWO_61 * (j * k);
    assert x * y == x' * y' + TWO_61 * m by {
      assert x * y == x' * y + (TWO_61 * j) * y;
      assert x' * y == x' * y' + x' * (TWO_61 * k);
      assert (TWO_61 * j) * y == (TWO_61 * j) * y' + (TWO_61 * j) * (TWO_61 * k);
      assert x' * (TWO_61 * k) == TWO_61 * (x' * k);
      assert (TWO_61 * j) * y' == TWO_61 * (j * y');
      assert (TWO_61 * j) * (TWO_61 * k) == TWO_61 * (TWO_61 * (j * k));
    }
    CongruentBy(x * y, x' * y', m);
  }

  /** Addition, subtraction and multiplication respect the residue modulo 2^61. */
  lemma RawArithIsCongruent(op: ArithOp, x: int, x': int, y: int, y': int)
    requires !op.Div? && Congruent(x, x') && Congruent(y, y')
    ensures Congruent(RawArith(op, x, y), RawArith(op, x', y'))
  {
    var i := if op.Add? then x + y else if op.Sub? then x - y else x * y;
    var i' := if op.Add? then x' + y' else if op.Sub? then x' - y' else x' * y';
    assert Congruent(i, i') by {
      var j :| x == x' + TWO_61 * j;
      var k :| y == y' + TWO_61 * k;
      if op.Mul? {
        ProductIsCongruent(x, x', y, y');
      } else {
        CongruentBy(i, i', if op.Add? then j + k else j - k);
      }
    }
    TruncationIsCongruent(i);
    TruncationIsCongruent(i');
    CongruentTransitive(RawArith(op, x, y), i, i');
    CongruentSymmetric(RawArith(op, x', y'), i');
    CongruentTransitive(RawArith(op, x, y), i', RawArith(op, x', y'));
  }

  /** The residues of the two paths agree at every step. */
  lemma {:induction false} WrappedInStep(b: Block, env: Env, n: nat)
    requires WellFormed(b, env) && NoDivision(b) && n <= |b|
    ensures var s := Wrapped(b, env, n);
            var f := Fast(b, env, n);
            && s.Words? && f.Ints?
            && forall i | 0 <= i < n :: Congruent(Shr3(s.ws[i]), f.vals[i]) && s.ws[i] == Encode(f.vals[i])
    decreases n
  {
    if n > 0 {
      WrappedInStep(b, env, n - 1);
      var s, f := Wrapped(b, env, n - 1), Fast(b, env, n - 1);
      var c := b[n - 1];
      assert OperandOk(c.lhs, n - 1, env) && OperandOk(c.rhs, n - 1, env);
      var lw, rw := Shr3(WordOf(c.lhs, s.ws, env)), Shr3(WordOf(c.rhs, s.ws, env));
      var li, ri := IntOf(c.lhs, f.vals, env), IntOf(c.rhs, f.vals, env);
      assert Congruent(lw, li) by { if !c.lhs.Computed? { CongruentBy(lw, li, 0); } }
      assert Congruent(rw, ri) by { if !c.rhs.Computed? { CongruentBy(rw, ri, 0); } }
      RawArithIsCongruent(c.op, lw, li, rw, ri);
      SameResidueSameWord(RawArith(c.op, lw, rw), RawArith(c.op, li, ri));
    }
  }

  lemma SameResidueSameWord(x: int, y: int)
    requires Congruent(x, y)
    ensures Encode(x) == Encode(y) && Congruent(Shr3(Encode(x)), y)
  {
    EncodeIsCongruent(x);
    EncodeIsCongruent(y);
    CongruentResidue(x, y);
  }

  /**
   Without division, truncating once at the end is the same as truncating every
   result to 61 bits: both paths yield one word for every input.
   */
  lemma WrapAroundPathsAgree(b: Block, env: Env)
    requires WellFormed(b, env) && NoDivision(b) && b != []
    ensures var s := Wrapped(b, env, |b|);
            s.Words? && FastResult(b, env) == Fine(s.ws[|b| - 1])
  {
    WrappedInStep(b, env, |b|);
  }

  /** `(x + 1) / 2`. */
  const HALF_OF_SUCCESSOR: Block :=
    [Call(Add, Outside(Loaded(0)), Constant(Encode(1))), Call(Div, Computed(0), Constant(Encode(2)))]

  const LARGEST: Env := map[Loaded(0) := Encode(TWO_60 - 1)]

  lemma FastHalf()
    ensures FastResult(HALF_OF_SUCCESSOR, LARGEST) == Fine(Encode(TWO_60 / 2))
  {
    var b, env := HALF_OF_SUCCESSOR, LARGEST;
    assert Shr3(Encode(1)) == 1 && Shr3(Encode(2)) == 2 && Shr3(env[Loaded(0)]) == TWO_60 - 1;
    assert Fast(b, env, 0) == Ints([]);
    assert Fast(b, env, 1) == Ints([TWO_60]);
    assert Fast(b, env, 2) == Ints([TWO_60, TWO_60 / 2]);
  }

  lemma WrappedHalf()
    ensures Wrapped(HALF_OF_SUCCESSOR, LARGEST, 2) == Words([Encode(TWO_60), Encode(-TWO_60 / 2)])
  {
    var b, env := HALF_OF_SUCCESSOR, LARGEST;
    assert Shr3(Encode(1)) == 1 && Shr3(Encode(2)) == 2 && Shr3(env[Loaded(0)]) == TWO_60 - 1;
    assert Wrapped(b, env, 0) == Words([]);
    assert Wrapped(b, env, 1) == Words([Encode(TWO_60)]);
    assert Shr3(Encode(TWO_60)) == -TWO_60;
  }

  /** Division does not respect the residue: (2^60 - 1 + 1) / 2 differs. */
  lemma DivisionSeesTheWrap()
    ensures WellFormed(HALF_OF_SUCCESSOR, LARGEST) && Wrapped(HALF_OF_SUCCESSOR, LARGEST, 2).Words?
    ensures FastResult(HALF_OF_SUCCESSOR, LARGEST) != Fine(Wrapped(HALF_OF_SUCCESSOR, LARGEST, 2).ws[1])
  {
    FastHalf();
    WrappedHalf();
  }
}
