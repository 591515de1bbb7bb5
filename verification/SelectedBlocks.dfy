/**
 From selection to lowering: the blocks that the selection records, the code that
 is emitted for them, and exactly when the guarded result is the right one.
 */
module SelectedBlocks {
  import opened Tagged
  import opened ArithmeticBlocks
  import opened FastPath
  import opened ExpressionTrees

  /* ---- Translation ---- */

  predicate Within(b: Selected, v: Value) {
    v.Local? && b.first <= v.index <= b.last
  }

  function OperandOf(b: Selected, v: Value): Operand {
    if Within(b, v) then Computed(v.index - b.first)
    else if v.Const? then Constant(v.w)
    else Outside(v)
  }

  /** A run of arithmetic calls. */
  predicate IsRun(bb: BasicBlock, b: Selected) {
    b.first <= b.last && forall k: nat | b.first <= k <= b.last :: IsArith(bb, k)
  }

  function CallAt(bb: BasicBlock, b: Selected, i: nat): Call
    requires IsRun(bb, b) && b.first + i <= b.last
  {
    assert IsArith(bb, b.first + i);
    var inst := bb[b.first + i];
    Call(inst.op, OperandOf(b, inst.l), OperandOf(b, inst.r))
  }

  /** The calls of a block as the lowering sees them. */
  function BlockOf(bb: BasicBlock, b: Selected): (r: Block)
    requires IsRun(bb, b)
    ensures |r| == b.last - b.first + 1
  {
    seq(b.last - b.first + 1, i requires 0 <= i < b.last - b.first + 1 => CallAt(bb, b, i))
  }

  /** Every constant that the block uses is an integer; string literals compile to constants that are not. */
  ghost predicate IntegerConstants(bb: BasicBlock, b: Selected) {
    forall k: nat, w | b.first <= k <= b.last && Uses(bb, k, Const(w)) :: IsInteger(w)
  }

  lemma UsedInBlock(bb: BasicBlock, b: Selected, v: Value)
    requires IsRun(bb, b) && !Within(b, v)
    ensures UsedIn(BlockOf(bb, b), OperandOf(b, v)) <==> exists k: nat | b.first <= k <= b.last :: Uses(bb, k, v)
  {
    var block := BlockOf(bb, b);
    if UsedIn(block, OperandOf(b, v)) {
      var i :| 0 <= i < |block| && (block[i].lhs == OperandOf(b, v) || block[i].rhs == OperandOf(b, v));
      assert block[i] == CallAt(bb, b, i);
      assert Uses(bb, b.first + i, v);
    }
    if k: nat :| b.first <= k <= b.last && Uses(bb, k, v) {
      assert block[k - b.first] == CallAt(bb, b, k - b.first);
    }
  }

  lemma CoveredExactlyWhen(bb: BasicBlock, b: Selected)
    requires IsRun(bb, b)
    ensures Covered(BlockOf(bb, b), b.args) <==> Covers(bb, b) && IntegerConstants(bb, b)
  {
    var block := BlockOf(bb, b);
    forall v: Value | !Within(b, v) && !v.Const?
      ensures UsedIn(block, Outside(v)) <==> FromOutside(bb, b, v)
    {
      UsedInBlock(bb, b, v);
    }
    forall w ensures UsedIn(block, Constant(w)) <==> exists k: nat | b.first <= k <= b.last :: Uses(bb, k, Const(w)) {
      UsedInBlock(bb, b, Const(w));
    }
    forall v: Value | Within(b, v) || v.Const? ensures !UsedIn(block, Outside(v)) {
      OutsideIsOutside(bb, b, v);
    }
  }

  lemma OutsideIsOutside(bb: BasicBlock, b: Selected, v: Value)
    requires IsRun(bb, b) && (Within(b, v) || v.Const?)
    ensures !UsedIn(BlockOf(bb, b), Outside(v))
  {
    var block := BlockOf(bb, b);
    forall i | 0 <= i < |block| ensures block[i].lhs != Outside(v) && block[i].rhs != Outside(v) {
      assert block[i] == CallAt(bb, b, i);
    }
  }

  /* ---- The exact condition ---- */

  /** Some input runs through the block without overflow or division by zero. */
  ghost predicate Computable(block: Block) {
    exists env: Env :: WellFormed(block, env) && NoOverflow(block, env)
  }

  /** On every input without overflow the join yields what the helpers do. */
  ghost predicate RightWithoutOverflow(block: Block, checked: set<Value>)
    requires block != []
  {
    forall call: Overload, env: Env | WellFormed(block, env) && ValidEnv(env) && NoOverflow(block, env) ::
      JoinResult(call, block, env, checked) == SlowResult(call, block, env)
  }

  function Retag(checked: bool, w: Word): Word {
    if checked then Encode(Shr3(w)) else Wrap(8 * Shr3(w))
  }

  lemma RetagKeepsNumber(checked: bool, w: Word)
    ensures Shr3(Retag(checked, w)) == Shr3(w)
    ensures if checked then IsInteger(Retag(checked, w)) else Tag(Retag(checked, w)) == 0
    ensures checked ==> Retag(checked, w) % 2 == 1
  {
    EncodeDecode(Shr3(w));
    IntegerIsOdd(Encode(Shr3(w)));
  }

  lemma IntegerIsOdd(w: Word)
    ensures IsInteger(w) ==> w % 2 == 1
  {
    assert w == 8 * (w / 8) + w % 8;
  }

  /** The same numbers, as integers where the guard looks and as objects where it does not. */
  function Disguise(env: Env, checked: set<Value>): Env {
    map v | v in env :: Retag(v in checked, env[v])
  }

  lemma DisguiseIsValid(env: Env, checked: set<Value>)
    ensures var env' := Disguise(env, checked);
            && env'.Keys == env.Keys && ValidEnv(env') && Guard(checked, env')
            && (forall v | v in env :: Shr3(env'[v]) == Shr3(env[v]))
            && (forall v | v in env && v !in checked :: !IsInteger(env'[v]))
  {
    forall v | v in env
      ensures Shr3(Disguise(env, checked)[v]) == Shr3(env[v])
      ensures if v in checked then IsInteger(Disguise(env, checked)[v]) else Tag(Disguise(env, checked)[v]) == 0
      ensures v in checked ==> Disguise(env, checked)[v] % 2 == 1
    {
      RetagKeepsNumber(v in checked, env[v]);
    }
  }

  lemma {:induction false} FastSeesNumbers(block: Block, env: Env, env': Env, n: nat)
    requires WellFormed(block, env) && WellFormed(block, env') && n <= |block|
    requires env'.Keys == env.Keys && forall v | v in env :: Shr3(env'[v]) == Shr3(env[v])
    ensures Fast(block, env', n) == Fast(block, env, n)
    decreases n
  {
    if n > 0 {
      FastSeesNumbers(block, env, env', n - 1);
      assert OperandOk(block[n - 1].lhs, n - 1, env) && OperandOk(block[n - 1].rhs, n - 1, env);
    }
  }

  /** An operand that is no integer. */
  predicate Stranger(o: Operand, env: Env) {
    match o
    case Computed(_) => false
    case Outside(v) => v in env && !IsInteger(env[v])
    case Constant(w) => !IsInteger(w)
  }

  function Refuse(op: ArithOp, l: Word, r: Word): Checked {
    Trapped
  }

  lemma {:induction false} StrangerStops(block: Block, env: Env, i: nat, n: nat)
    requires WellFormed(block, env) && i < n <= |block|
    requires Stranger(block[i].lhs, env) || Stranger(block[i].rhs, env)
    ensures Slow(Refuse, block, env, n).Stopped?
    decreases n
  {
    if i < n - 1 {
      StrangerStops(block, env, i, n - 1);
    } else {
      assert OperandOk(block[i].lhs, i, env) && OperandOk(block[i].rhs, i, env);
    }
  }

  lemma UncoveredIsWrong(block: Block, checked: set<Value>, env: Env)
    requires block != [] && !Covered(block, checked) && WellFormed(block, env) && NoOverflow(block, env)
    ensures var env' := Disguise(env, checked);
            && WellFormed(block, env') && ValidEnv(env') && NoOverflow(block, env')
            && JoinResult(Refuse, block, env', checked) != SlowResult(Refuse, block, env')
  {
    var env' := Disguise(env, checked);
    DisguiseIsValid(env, checked);
    forall i | 0 <= i < |block| ensures OperandOk(block[i].lhs, i, env') && OperandOk(block[i].rhs, i, env') {
      assert OperandOk(block[i].lhs, i, env) && OperandOk(block[i].rhs, i, env);
    }
    FastSeesNumbers(block, env, env', |block|);
    var i := UncoveredCall(block, checked, env);
    StrangerStops(block, env', i, |block|);
  }

  lemma UncoveredCall(block: Block, checked: set<Value>, env: Env) returns (i: nat)
    requires !Covered(block, checked) && WellFormed(block, env)
    ensures var env' := Disguise(env, checked);
            i < |block| && (Stranger(block[i].lhs, env') || Stranger(block[i].rhs, env'))
  {
    DisguiseIsValid(env, checked);
    if x :| UsedIn(block, Outside(x)) && x !in checked {
      i :| 0 <= i < |block| && (block[i].lhs == Outside(x) || block[i].rhs == Outside(x));
    } else {
      var w :| UsedIn(block, Constant(w)) && !IsInteger(w);
      i :| 0 <= i < |block| && (block[i].lhs == Constant(w) || block[i].rhs == Constant(w));
    }
    assert OperandOk(block[i].lhs, i, env) && OperandOk(block[i].rhs, i, env);
  }

  /**
   A block, as its operands stand when it is lowered, is right on every input without
   overflow exactly when the guard tests all it takes from outside and its constants
   are integers, or when there is no such input.
   */
  lemma SelectedBlockIsRightExactlyWhen(bb: BasicBlock, b: Selected)
    requires IsRun(bb, b)
    ensures RightWithoutOverflow(BlockOf(bb, b), b.args)
            <==> (Covers(bb, b) && IntegerConstants(bb, b)) || !Computable(BlockOf(bb, b))
  {
    CoveredExactlyWhen(bb, b);
    CoverageDecides(BlockOf(bb, b), b.args);
  }

  lemma CoverageDecides(block: Block, checked: set<Value>)
    requires block != []
    ensures RightWithoutOverflow(block, checked) <==> Covered(block, checked) || !Computable(block)
  {
    if Covered(block, checked) {
      forall call: Overload, env: Env | WellFormed(block, env) && ValidEnv(env) && NoOverflow(block, env)
        ensures JoinResult(call, block, env, checked) == SlowResult(call, block, env)
      {
        FastRefinesSlow(call, block, env, checked);
      }
    } else if Computable(block) {
      var env: Env :| WellFormed(block, env) && NoOverflow(block, env);
      UncoveredIsWrong(block, checked, env);
    }
  }

  /**
   The block of `(x + y) + (z + w)` whose guard misses the first sum: with an object
   there, the fast path takes it for a number.
   */
  lemma FourVariablesAreMistaken()
    ensures var b := Selected(5, 6, {Loaded(3), Loaded(4)});
            var bb := TreeBlock(FOUR_VARIABLES);
            IsRun(bb, b) && !RightWithoutOverflow(BlockOf(bb, b), b.args)
  {
    var b := FourVariablesAreNotCovered();
    var bb := TreeBlock(FOUR_VARIABLES);
    FourVariablesCode();
    SumsOfFour(bb, b);
    SelectedBlockIsRightExactlyWhen(bb, b);
  }

  lemma SumsOfFour(bb: BasicBlock, b: Selected)
    requires b.first == 5 && b.last == 6 && |bb| == 8
    requires bb[5] == Arith(Add, Loaded(3), Loaded(4)) && bb[6] == Arith(Add, Local(2), Local(5))
    ensures IsRun(bb, b) && Computable(BlockOf(bb, b))
  {
    assert IsRun(bb, b);
    var block := BlockOf(bb, b);
    assert block == [Call(Add, Outside(Loaded(3)), Outside(Loaded(4))), Call(Add, Outside(Local(2)), Computed(0))];
    var env: Env := map[Loaded(3) := 9, Loaded(4) := 9, Local(2) := 9];
    assert Fast(block, env, 0) == Ints([]);
    assert Fast(block, env, 1) == Ints([2]);
    assert Fast(block, env, 2) == Ints([2, 3]);
    assert NoOverflow(block, env);
  }
}
