/** Emitting the fast path of a selected block, with the maps from slow values to fast registers. */
module Lowering {
  import opened Tagged
  import opened ArithmeticBlocks
  import opened FastPath
  import opened SelectedBlocks

  /** Untag a word, or compute on two registers; each instruction defines the register of its own number. */
  datatype FastInst = Untag(v: Value) | Compute(op: ArithOp, l: nat, r: nat)

  type FastCode = seq<FastInst>

  function RegisterIn(vals: seq<int>, r: nat): int {
    if r < |vals| then vals[r] else 0
  }

  function WordFor(v: Value, env: Env): Word {
    if v.Const? then v.w else if v in env then env[v] else 0
  }

  function RunInst(i: FastInst, vals: seq<int>, env: Env): Ints {
    match i
    case Untag(v) => Ints(vals + [Shr3(WordFor(v, env))])
    case Compute(op, l, r) =>
      if op.Div? && RegisterIn(vals, r) == 0 then DivisionByZero
      else Ints(vals + [RawArith(op, RegisterIn(vals, l), RegisterIn(vals, r))])
  }

  /** All registers after the code has run. */
  function RunCode(code: FastCode, env: Env): (r: Ints)
    ensures r.Ints? ==> |r.vals| == |code|
    decreases |code|
  {
    if code == [] then Ints([])
    else
      match RunCode(code[..|code| - 1], env)
      case DivisionByZero => DivisionByZero
      case Ints(vals) => RunInst(code[|code| - 1], vals, env)
  }

  /** The last computed register, tagged, is the result. */
  function ResultOf(code: FastCode, result: nat, env: Env): Checked {
    match RunCode(code, env)
    case Ints(vals) => Fine(Encode(RegisterIn(vals, result)))
    case DivisionByZero => Trapped
  }

  lemma RunAppend(code: FastCode, i: FastInst, env: Env)
    ensures RunCode(code + [i], env) ==
            match RunCode(code, env)
            case DivisionByZero => DivisionByZero
            case Ints(vals) => RunInst(i, vals, env)
  {
    assert (code + [i])[..|code|] == code;
  }

  /** The block's own results so far. */
  predicate Done(b: Selected, n: nat, v: Value) {
    v.Local? && b.first <= v.index < b.first + n
  }

  /** The registers hold what the maps say: untagged arguments, and the results computed so far. */
  ghost predicate MapsHold(
    vals: seq<int>, argMap: map<Value, nat>, deps: map<Value, nat>, b: Selected, results: seq<int>, env: Env)
  {
    && (forall v | v in argMap :: argMap[v] < |vals| && vals[argMap[v]] == Shr3(WordFor(v, env)))
    && (forall v :: v in deps <==> Done(b, |results|, v))
    && (forall v | v in deps :: deps[v] < |vals| && vals[deps[v]] == results[v.index - b.first])
  }

  lemma MapsHoldLonger(
    vals: seq<int>, argMap: map<Value, nat>, deps: map<Value, nat>, b: Selected, results: seq<int>, env: Env, x: int)
    requires MapsHold(vals, argMap, deps, b, results, env)
    ensures MapsHold(vals + [x], argMap, deps, b, results, env)
  {
  }

  lemma MapsHoldNext(
    vals: seq<int>, argMap: map<Value, nat>, deps: map<Value, nat>, b: Selected, results: seq<int>, env: Env, x: int)
    requires MapsHold(vals, argMap, deps, b, results, env)
    ensures MapsHold(vals + [x], argMap, deps[Local(b.first + |results|) := |vals|], b, results + [x], env)
  {
  }

  /** After `n` calls: the code divides by zero if the block does, and otherwise the maps hold. */
  ghost predicate Emitted(
    code: FastCode, argMap: map<Value, nat>, deps: map<Value, nat>, b: Selected, fast: Ints, env: Env)
  {
    match fast
    case DivisionByZero => RunCode(code, env).DivisionByZero?
    case Ints(results) =>
      RunCode(code, env).Ints? && MapsHold(RunCode(code, env).vals, argMap, deps, b, results, env)
  }

  /** After `n` calls of the block, on every input. */
  ghost predicate EmittedTo(
    code: FastCode, argMap: map<Value, nat>, deps: map<Value, nat>, b: Selected, block: Block, n: nat)
    requires n <= |block|
  {
    forall env: Env | WellFormed(block, env) :: Emitted(code, argMap, deps, b, Fast(block, env, n), env)
  }

  lemma UntagKeepsEmitted(
    code: FastCode, argMap: map<Value, nat>, deps: map<Value, nat>, b: Selected, block: Block, n: nat, v: Value)
    requires n <= |block| && EmittedTo(code, argMap, deps, b, block, n)
    ensures EmittedTo(code + [Untag(v)], argMap, deps, b, block, n)
  {
    forall env: Env | WellFormed(block, env)
      ensures Emitted(code + [Untag(v)], argMap, deps, b, Fast(block, env, n), env)
    {
      RunAppend(code, Untag(v), env);
      var fast := Fast(block, env, n);
      if fast.Ints? {
        MapsHoldLonger(RunCode(code, env).vals, argMap, deps, b, fast.vals, env, Shr3(WordFor(v, env)));
      }
    }
  }

  lemma UntagIsArgument(code: FastCode, argMap: map<Value, nat>, b: Selected, block: Block, v: Value)
    requires EmittedTo(code, argMap, map[], b, block, 0)
    ensures EmittedTo(code + [Untag(v)], argMap[v := |code|], map[], b, block, 0)
  {
    forall env: Env | WellFormed(block, env)
      ensures Emitted(code + [Untag(v)], argMap[v := |code|], map[], b, Fast(block, env, 0), env)
    {
      RunAppend(code, Untag(v), env);
      MapsHoldLonger(RunCode(code, env).vals, argMap, map[], b, [], env, Shr3(WordFor(v, env)));
    }
  }

  ghost predicate InRange(maps: map<Value, nat>, code: FastCode) {
    forall v | v in maps :: maps[v] < |code|
  }

  /** The arguments of the guard are untagged first. */
  method UntagArguments(b: Selected, ghost block: Block) returns (code: FastCode, argMap: map<Value, nat>)
    ensures EmittedTo(code, argMap, map[], b, block, 0)
    ensures argMap.Keys == b.args && InRange(argMap, code)
  {
    code, argMap := [], map[];
    var rest := b.args;
    while rest != {}
      invariant rest <= b.args && argMap.Keys == b.args - rest
      invariant InRange(argMap, code)
      invariant EmittedTo(code, argMap, map[], b, block, 0)
      decreases |rest|
    {
      var v :| v in rest;
      UntagIsArgument(code, argMap, b, block, v);
      argMap := argMap[v := |code|];
      code := code + [Untag(v)];
      rest := rest - {v};
    }
  }

  /** On every input on which the block gets that far, the register holds the operand, and no earlier one changes. */
  ghost predicate Holds(code: FastCode, code': FastCode, register: nat, block: Block, n: nat, o: Operand)
    requires n < |block| && (o == block[n].lhs || o == block[n].rhs)
  {
    register < |code'| &&
    forall env: Env | WellFormed(block, env) && Fast(block, env, n).Ints? ::
      HoldsOn(code, code', register, Fast(block, env, n).vals, o, env)
  }

  ghost predicate HoldsOn(
    code: FastCode, code': FastCode, register: nat, results: seq<int>, o: Operand, env: Env)
  {
    && OperandOk(o, |results|, env) && RunCode(code, env).Ints? && RunCode(code', env).Ints?
    && RunCode(code, env).vals <= RunCode(code', env).vals
    && RegisterIn(RunCode(code', env).vals, register) == IntOf(o, results, env)
  }

  /** The register of an operand: a checked argument, an earlier result of the block, or else taken for a constant. */
  method LowerOperand(
    code: FastCode, argMap: map<Value, nat>, deps: map<Value, nat>, v: Value,
    ghost b: Selected, ghost block: Block, ghost n: nat, ghost o: Operand)
    returns (code': FastCode, register: nat)
    requires n < |block| && b.first + n <= b.last && (o == block[n].lhs || o == block[n].rhs)
    requires EmittedTo(code, argMap, deps, b, block, n) && InRange(argMap, code) && InRange(deps, code)
    requires o == OperandOf(b, v) && (forall x | x in argMap :: !Within(b, x))
    ensures code <= code' && EmittedTo(code', argMap, deps, b, block, n)
    ensures Holds(code, code', register, block, n, o)
  {
    code' := code;
    if v in argMap {
      register := argMap[v];
    } else if v in deps {
      register := deps[v];
    } else {
      UntagKeepsEmitted(code, argMap, deps, b, block, n, v);
      code' := code + [Untag(v)];
      register := |code|;
    }
    forall env: Env | WellFormed(block, env) && Fast(block, env, n).Ints?
      ensures HoldsOn(code, code', register, Fast(block, env, n).vals, o, env)
    {
      RegisterHolds(code, code', argMap, deps, v, b, block, n, o, register, env);
    }
  }

  lemma RegisterHolds(
    code: FastCode, code': FastCode, argMap: map<Value, nat>, deps: map<Value, nat>, v: Value, b: Selected,
    block: Block, n: nat, o: Operand, register: nat, env: Env)
    requires n < |block| && b.first + n <= b.last && (o == block[n].lhs || o == block[n].rhs)
    requires WellFormed(block, env) && Fast(block, env, n).Ints? && o == OperandOf(b, v)
    requires Emitted(code, argMap, deps, b, Fast(block, env, n), env) && (forall x | x in argMap :: !Within(b, x))
    requires if v in argMap then code' == code && register == argMap[v]
             else if v in deps then code' == code && register == deps[v]
             else code' == code + [Untag(v)] && register == |code|
    ensures HoldsOn(code, code', register, Fast(block, env, n).vals, o, env)
  {
    assert OperandOk(o, n, env);
    if v in argMap {
      ArgumentHolds(code, argMap, deps, v, b, Fast(block, env, n).vals, o, env);
    } else if v in deps {
      ResultHolds(code, argMap, deps, v, b, Fast(block, env, n).vals, o, env);
    } else {
      UntaggedHolds(code, argMap, deps, v, b, Fast(block, env, n).vals, o, env);
    }
  }

  lemma ArgumentHolds(
    code: FastCode, argMap: map<Value, nat>, deps: map<Value, nat>, v: Value, b: Selected, results: seq<int>,
    o: Operand, env: Env)
    requires Emitted(code, argMap, deps, b, Ints(results), env) && o == OperandOf(b, v)
    requires OperandOk(o, |results|, env) && v in argMap && !Within(b, v)
    ensures HoldsOn(code, code, argMap[v], results, o, env)
  {
  }

  lemma ResultHolds(
    code: FastCode, argMap: map<Value, nat>, deps: map<Value, nat>, v: Value, b: Selected, results: seq<int>,
    o: Operand, env: Env)
    requires Emitted(code, argMap, deps, b, Ints(results), env) && o == OperandOf(b, v)
    requires OperandOk(o, |results|, env) && v in deps && b.first + |results| <= b.last
    ensures HoldsOn(code, code, deps[v], results, o, env)
  {
  }

  lemma UntaggedHolds(
    code: FastCode, argMap: map<Value, nat>, deps: map<Value, nat>, v: Value, b: Selected, results: seq<int>,
    o: Operand, env: Env)
    requires Emitted(code, argMap, deps, b, Ints(results), env) && o == OperandOf(b, v)
    requires OperandOk(o, |results|, env) && v !in deps
    ensures HoldsOn(code, code + [Untag(v)], |code|, results, o, env)
  {
    RunAppend(code, Untag(v), env);
  }

  /**
   The fast path of a block: untagged arguments, one instruction for each call, and
   the register to tag at the end. On every input it computes the fast result.
   */
  method LowerBlock(bb: BasicBlock, b: Selected) returns (code: FastCode, result: nat)
    requires IsRun(bb, b) && forall v | v in b.args :: !Within(b, v)
    ensures Computes(code, result, BlockOf(bb, b))
  {
    ghost var block := BlockOf(bb, b);
    var argMap: map<Value, nat>;
    code, argMap := UntagArguments(b, block);
    var deps: map<Value, nat> := map[];
    result := 0;
    var k := b.first;
    while k <= b.last
      invariant b.first <= k <= b.last + 1
      invariant EmittedTo(code, argMap, deps, b, block, k - b.first)
      invariant InRange(argMap, code) && InRange(deps, code)
      invariant k > b.first ==> Local(k - 1) in deps && result == deps[Local(k - 1)]
    {
      code, result := LowerCall(code, argMap, deps, bb, b, k, block);
      deps := deps[Local(k) := result];
      k := k + 1;
    }
    LastRegister(code, argMap, deps, b, block, result);
  }

  /** The code yields the fast result of the block, on every input. */
  ghost predicate Computes(code: FastCode, result: nat, block: Block)
    requires block != []
  {
    forall env: Env | WellFormed(block, env) :: ResultOf(code, result, env) == FastResult(block, env)
  }

  lemma LastRegister(
    code: FastCode, argMap: map<Value, nat>, deps: map<Value, nat>, b: Selected, block: Block, result: nat)
    requires b.first <= b.last && |block| == b.last - b.first + 1
    requires EmittedTo(code, argMap, deps, b, block, |block|)
    requires Local(b.last) in deps && result == deps[Local(b.last)]
    ensures Computes(code, result, block)
  {
    forall env: Env | WellFormed(block, env) ensures ResultOf(code, result, env) == FastResult(block, env) {
      assert Emitted(code, argMap, deps, b, Fast(block, env, |block|), env);
    }
  }

  /** Values the guard tests are no results of the block. */
  lemma ArgumentsAreOutside(bb: BasicBlock, counts: Counts, b: Selected)
    requires UsedOnce(bb, counts) && Recorded(bb, counts, b)
    ensures forall v | v in b.args :: !Within(b, v)
  {
    forall v | v in b.args ensures !Within(b, v) {
      assert Tested(bb, counts, b.first, b.last + 1, v);
    }
  }

  /** One call: both operands, then the instruction. */
  method LowerCall(
    code: FastCode, argMap: map<Value, nat>, deps: map<Value, nat>, bb: BasicBlock, b: Selected, k: nat,
    ghost block: Block)
    returns (code': FastCode, result: nat)
    requires IsRun(bb, b) && b.first <= k <= b.last && block == BlockOf(bb, b)
    requires EmittedTo(code, argMap, deps, b, block, k - b.first)
    requires InRange(argMap, code) && InRange(deps, code) && forall v | v in argMap :: !Within(b, v)
    ensures |code| <= |code'| && result < |code'|
    ensures EmittedTo(code', argMap, deps[Local(k) := result], b, block, k - b.first + 1)
  {
    assert IsArith(bb, k);
    ghost var n := k - b.first;
    ghost var c := block[n];
    assert c == CallAt(bb, b, n);
    var l, r;
    code', l := LowerOperand(code, argMap, deps, bb[k].l, b, block, n, c.lhs);
    ghost var before := code';
    code', r := LowerOperand(code', argMap, deps, bb[k].r, b, block, n, c.rhs);
    result := |code'|;
    forall env: Env | WellFormed(block, env)
      ensures Emitted(code' + [Compute(bb[k].op, l, r)], argMap, deps[Local(k) := result], b,
                      Fast(block, env, n + 1), env)
    {
      CallIsEmitted(code, before, code', argMap, deps, b, block, n, l, r, env);
    }
    code' := code' + [Compute(bb[k].op, l, r)];
  }

  lemma CallIsEmitted(
    code: FastCode, before: FastCode, code': FastCode, argMap: map<Value, nat>, deps: map<Value, nat>, b: Selected,
    block: Block, n: nat, l: nat, r: nat, env: Env)
    requires n < |block| && WellFormed(block, env) && l < |before|
    requires Emitted(code', argMap, deps, b, Fast(block, env, n), env)
    requires Holds(code, before, l, block, n, block[n].lhs) && Holds(before, code', r, block, n, block[n].rhs)
    ensures Emitted(code' + [Compute(block[n].op, l, r)], argMap, deps[Local(b.first + n) := |code'|], b,
                    Fast(block, env, n + 1), env)
  {
    RunAppend(code', Compute(block[n].op, l, r), env);
    var fast := Fast(block, env, n);
    if fast.Ints? {
      assert HoldsOn(code, before, l, fast.vals, block[n].lhs, env);
      assert HoldsOn(before, code', r, fast.vals, block[n].rhs, env);
      var vals := RunCode(code', env).vals;
      if !(block[n].op.Div? && vals[r] == 0) {
        MapsHoldNext(vals, argMap, deps, b, fast.vals, env, RawArith(block[n].op, vals[l], vals[r]));
      }
    }
  }
}
