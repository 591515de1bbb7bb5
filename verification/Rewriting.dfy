/**
 The second loop of the arithmetic pass. The recorded blocks are lowered one after
 another, in the order of a map keyed by addresses, so in any order. Each time all
 uses of the lowered block's result are redirected to the phi node at its join,
 while the values that later blocks test stay as the selection recorded them.
 */
module Rewriting {
  import opened Tagged
  import opened Ast
  import opened ArithmeticBlocks
  import opened FastPath
  import opened SelectedBlocks
  import opened Lowering

  /* ---- Redirecting uses ---- */

  /** What a use of `v` has become once the blocks that end at `lasts` are lowered. */
  function Redirect(lasts: set<nat>, v: Value): Value {
    if v.Local? && v.index in lasts then Join(v.index) else v
  }

  function RedirectInst(lasts: set<nat>, i: Inst): Inst {
    match i
    case Arith(op, l, r) => Arith(op, Redirect(lasts, l), Redirect(lasts, r))
    case Other(uses) => Other(seq(|uses|, k requires 0 <= k < |uses| => Redirect(lasts, uses[k])))
  }

  function RedirectCode(lasts: set<nat>, bb: BasicBlock): (r: BasicBlock)
    ensures |r| == |bb|
  {
    seq(|bb|, k requires 0 <= k < |bb| => RedirectInst(lasts, bb[k]))
  }

  function RedirectAll(lasts: set<nat>, vs: set<Value>): set<Value> {
    set v | v in vs :: Redirect(lasts, v)
  }

  function RedirectFastInst(lasts: set<nat>, i: FastInst): FastInst {
    match i
    case Untag(v) => Untag(Redirect(lasts, v))
    case Compute(_, _, _) => i
  }

  function RedirectFast(lasts: set<nat>, code: FastCode): FastCode {
    seq(|code|, k requires 0 <= k < |code| => RedirectFastInst(lasts, code[k]))
  }

  lemma RedirectTwice(lasts: set<nat>, lasts': set<nat>, bb: BasicBlock)
    ensures RedirectCode(lasts', RedirectCode(lasts, bb)) == RedirectCode(lasts + lasts', bb)
  {
    forall k | 0 <= k < |bb|
      ensures RedirectInst(lasts', RedirectInst(lasts, bb[k])) == RedirectInst(lasts + lasts', bb[k])
    {
    }
  }

  lemma RedirectSetTwice(lasts: set<nat>, lasts': set<nat>, vs: set<Value>)
    ensures RedirectAll(lasts', RedirectAll(lasts, vs)) == RedirectAll(lasts + lasts', vs)
  {
    forall v | v in vs ensures Redirect(lasts', Redirect(lasts, v)) == Redirect(lasts + lasts', v) {
      assert Redirect(lasts, v) in RedirectAll(lasts, vs);
    }
    forall w | w in RedirectAll(lasts + lasts', vs) ensures w in RedirectAll(lasts', RedirectAll(lasts, vs)) {
      var v :| v in vs && w == Redirect(lasts + lasts', v);
      assert Redirect(lasts, v) in RedirectAll(lasts, vs);
    }
  }

  /** The users of the result of call `last` now use the phi node. */
  method ReplaceUses(code: array<Inst>, last: nat)
    modifies code
    ensures code[..] == RedirectCode({last}, old(code[..]))
  {
    var k := 0;
    while k < code.Length
      invariant 0 <= k <= code.Length
      invariant forall j | 0 <= j < k :: code[j] == RedirectInst({last}, old(code[j]))
      invariant forall j | k <= j < code.Length :: code[j] == old(code[j])
    {
      code[k] := RedirectInst({last}, code[k]);
      k := k + 1;
    }
  }

  /* ---- The loop ---- */

  /** A lowered block: the values its guard tests, and its fast path. */
  datatype Region = Region(block: Selected, guard: set<Value>, fast: FastCode, result: nat)

  function RedirectRegion(lasts: set<nat>, r: Region): Region {
    r.(guard := RedirectAll(lasts, r.guard), fast := RedirectFast(lasts, r.fast))
  }

  function RedirectRegions(lasts: set<nat>, rs: seq<Region>): (r: seq<Region>)
    ensures |r| == |rs|
  {
    seq(|rs|, i requires 0 <= i < |rs| => RedirectRegion(lasts, rs[i]))
  }

  function Lasts(order: seq<Selected>): set<nat> {
    set b | b in order :: b.last
  }

  predicate Apart(a: Selected, b: Selected) {
    a.last < b.first || b.last < a.first
  }

  /** Runs of calls that lie apart, defined before they are used, with values to check from outside. */
  ghost predicate Separate(bb: BasicBlock, order: seq<Selected>) {
    && (forall b | b in order :: IsRun(bb, b) && (forall v | v in b.args :: !Within(b, v)))
    && (forall k: nat, v | Uses(bb, k, v) && v.Local? :: v.index < k)
    && (forall i, j | 0 <= i < j < |order| :: Apart(order[i], order[j]))
  }

  /** What the loop leaves of block `i` after `n` blocks: the code is that of all `n` redirections. */
  ghost predicate Lowered(code: BasicBlock, order: seq<Selected>, i: nat, n: nat, r: Region) {
    && i < n <= |order| && r.block == order[i] && IsRun(code, order[i])
    && r.guard == RedirectAll(Lasts(order[i..n]), order[i].args)
    && Computes(r.fast, r.result, BlockOf(code, order[i]))
  }

  /** The whole result: operands redirected, guards only from their own lowering on, fast paths as the final code. */
  ghost predicate Rewritten(bb: BasicBlock, order: seq<Selected>, n: nat, code: BasicBlock, regions: seq<Region>) {
    && n <= |order| && |regions| == n && code == RedirectCode(Lasts(order[..n]), bb)
    && (forall i {:trigger Lowered(code, order, i, n, regions[i])} | 0 <= i < n ::
          Lowered(code, order, i, n, regions[i]))
  }

  lemma RunsStay(lasts: set<nat>, bb: BasicBlock, b: Selected)
    requires IsRun(bb, b)
    ensures IsRun(RedirectCode(lasts, bb), b)
  {
    forall k: nat | b.first <= k <= b.last ensures IsArith(RedirectCode(lasts, bb), k) {
      assert IsArith(bb, k);
    }
  }

  /** Lowering the recorded blocks in the given order. */
  method LowerBlocks(bb: BasicBlock, order: seq<Selected>) returns (final: BasicBlock, regions: seq<Region>)
    requires Separate(bb, order)
    ensures Rewritten(bb, order, |order|, final, regions)
  {
    var code := new Inst[|bb|](i requires 0 <= i < |bb| => bb[i]);
    regions := [];
    var n := 0;
    NothingLowered(bb, order);
    assert code[..] == bb;
    while n < |order|
      invariant 0 <= n <= |order|
      invariant Rewritten(bb, order, n, code[..], regions)
    {
      var b := order[n];
      ghost var before := code[..];
      assert b in order;
      RunsStay(Lasts(order[..n]), bb, b);
      var fast, result := LowerBlock(code[..], b);
      ReplaceUses(code, b.last);
      NextLowered(bb, order, n, before, regions, fast, result);
      regions := RedirectRegions({b.last}, regions + [Region(b, b.args, fast, result)]);
      n := n + 1;
    }
    final := code[..];
    assert order[..n] == order;
  }

  lemma NothingLowered(bb: BasicBlock, order: seq<Selected>)
    ensures Rewritten(bb, order, 0, bb, [])
  {
    forall k | 0 <= k < |bb| ensures RedirectInst({}, bb[k]) == bb[k] {
    }
    assert Lasts(order[..0]) == {};
    assert RedirectCode({}, bb) == bb;
  }

  lemma LastsAppend(order: seq<Selected>, i: nat, n: nat)
    requires i <= n < |order|
    ensures Lasts(order[i..n + 1]) == Lasts(order[i..n]) + {order[n].last}
  {
    assert order[i..n + 1] == order[i..n] + [order[n]];
  }

  lemma NextLowered(
    bb: BasicBlock, order: seq<Selected>, n: nat, code: BasicBlock, regions: seq<Region>, fast: FastCode, result: nat)
    requires Separate(bb, order) && n < |order| && Rewritten(bb, order, n, code, regions)
    requires IsRun(code, order[n]) && Computes(fast, result, BlockOf(code, order[n]))
    ensures var all := regions + [Region(order[n], order[n].args, fast, result)];
            Rewritten(bb, order, n + 1, RedirectCode({order[n].last}, code), RedirectRegions({order[n].last}, all))
  {
    var b := order[n];
    var all := regions + [Region(b, b.args, fast, result)];
    var code' := RedirectCode({b.last}, code);
    RedirectTwice(Lasts(order[..n]), {b.last}, bb);
    LastsAppend(order, 0, n);
    assert order[0..n] == order[..n] && order[0..n + 1] == order[..n + 1];
    forall i | 0 <= i < n + 1 ensures Lowered(code', order, i, n + 1, RedirectRegions({b.last}, all)[i]) {
      assert order[i] in order && (i < n ==> Apart(order[i], b) && Lowered(code, order, i, n, regions[i]));
      RegionStaysLowered(bb, order, i, n, code, all[i]);
    }
  }

  /** Redirecting one more result keeps what a region computes. */
  lemma RegionStaysLowered(
    bb: BasicBlock, order: seq<Selected>, i: nat, n: nat, code: BasicBlock, r: Region)
    requires Separate(bb, order) && i <= n < |order| && code == RedirectCode(Lasts(order[..n]), bb)
    requires r.block == order[i] && IsRun(code, order[i]) && Computes(r.fast, r.result, BlockOf(code, order[i]))
    requires if i < n then r.guard == RedirectAll(Lasts(order[i..n]), order[i].args) else r.guard == order[i].args
    ensures Lowered(RedirectCode({order[n].last}, code), order, i, n + 1, RedirectRegion({order[n].last}, r))
  {
    var last := order[n].last;
    LastsAppend(order, i, n);
    if i < n {
      RedirectSetTwice(Lasts(order[i..n]), {last}, order[i].args);
    } else {
      assert Lasts(order[n..n]) == {};
    }
    RunsStay({last}, code, order[i]);
    assert order[i] in order && order[n] in order;
    forall k: nat | order[i].first <= k <= order[i].last
      ensures Within(order[i], Local(last)) ==> !Uses(code, k, Local(last))
    {
      assert i < n ==> Apart(order[i], order[n]);
      if Uses(code, k, Local(last)) {
        assert Uses(bb, k, Local(last));
      }
    }
    RedirectKeepsComputes(code, order[i], r.fast, r.result, last);
  }

  lemma RedirectKeepsComputes(code: BasicBlock, b: Selected, fast: FastCode, result: nat, last: nat)
    requires IsRun(code, b) && Computes(fast, result, BlockOf(code, b)) && IsRun(RedirectCode({last}, code), b)
    requires Within(b, Local(last)) ==> forall k: nat | b.first <= k <= b.last :: !Uses(code, k, Local(last))
    ensures Computes(RedirectFast({last}, fast), result, BlockOf(RedirectCode({last}, code), b))
  {
    var block, block' := BlockOf(code, b), BlockOf(RedirectCode({last}, code), b);
    forall env: Env | WellFormed(block', env)
      ensures ResultOf(RedirectFast({last}, fast), result, env) == FastResult(block', env)
    {
      var env': Env := env[Local(last) := WordFor(Join(last), env)];
      forall i | 0 <= i < |block| ensures CallReads(block[i], block'[i], env', env, i) {
        CallRedirected(code, b, last, i, env);
      }
      FastReadsThrough(block, block', env', env, |block|);
      CodeReadsThrough(fast, last, env);
    }
  }

  /** Two calls that read the same words in two environments. */
  predicate CallReads(c: Call, c': Call, env: Env, env': Env, i: nat) {
    && c.op == c'.op && OperandReads(c.lhs, c'.lhs, env, env', i) && OperandReads(c.rhs, c'.rhs, env, env', i)
  }

  predicate OperandReads(o: Operand, o': Operand, env: Env, env': Env, i: nat) {
    && OperandOk(o, i, env) && OperandOk(o', i, env') && (o.Computed? || o'.Computed? ==> o == o')
    && (!o.Computed? ==> WordOf(o, seq(i, _ => 0), env) == WordOf(o', seq(i, _ => 0), env'))
  }

  lemma CallRedirected(code: BasicBlock, b: Selected, last: nat, i: nat, env: Env)
    requires IsRun(code, b) && IsRun(RedirectCode({last}, code), b) && b.first + i <= b.last
    requires Within(b, Local(last)) ==> forall k: nat | b.first <= k <= b.last :: !Uses(code, k, Local(last))
    requires WellFormed(BlockOf(RedirectCode({last}, code), b), env)
    ensures var env' := env[Local(last) := WordFor(Join(last), env)];
            CallReads(BlockOf(code, b)[i], BlockOf(RedirectCode({last}, code), b)[i], env', env, i)
  {
    var k := b.first + i;
    assert IsArith(code, k);
    var c' := BlockOf(RedirectCode({last}, code), b)[i];
    assert OperandOk(c'.lhs, i, env) && OperandOk(c'.rhs, i, env);
    assert Uses(code, k, code[k].l) && Uses(code, k, code[k].r);
    assert !Within(b, Join(last));
  }

  lemma {:induction false} FastReadsThrough(block: Block, block': Block, env: Env, env': Env, n: nat)
    requires |block| == |block'| && n <= |block|
    requires forall i | 0 <= i < |block| :: CallReads(block[i], block'[i], env, env', i)
    ensures WellFormed(block, env) && WellFormed(block', env')
    ensures Fast(block, env, n) == Fast(block', env', n)
    decreases n
  {
    assert forall i | 0 <= i < |block| :: CallReads(block[i], block'[i], env, env', i);
    if n > 0 {
      FastReadsThrough(block, block', env, env', n - 1);
      assert CallReads(block[n - 1], block'[n - 1], env, env', n - 1);
    }
  }

  lemma {:induction false} CodeReadsThrough(fast: FastCode, last: nat, env: Env)
    ensures RunCode(RedirectFast({last}, fast), env) == RunCode(fast, env[Local(last) := WordFor(Join(last), env)])
    decreases |fast|
  {
    if fast != [] {
      var front := fast[..|fast| - 1];
      CodeReadsThrough(front, last, env);
      assert RedirectFast({last}, fast)[..|fast| - 1] == RedirectFast({last}, front);
    }
  }

  /* ---- What the guards test ---- */

  /** Every recorded block once, in any order. */
  ghost predicate LoweringOrder(bb: BasicBlock, counts: Counts, order: seq<Selected>) {
    var s := ScanTo(bb, counts, |bb|);
    && s.Scan? && (forall b :: b in order <==> b in s.blocks)
    && (forall i, j | 0 <= i < j < |order| :: order[i] != order[j])
  }

  /** The code when block `i` has its turn. */
  function CodeNow(bb: BasicBlock, order: seq<Selected>, i: nat): BasicBlock
    requires i <= |order|
  {
    RedirectCode(Lasts(order[..i]), bb)
  }

  /** When it is lowered, the guard of block `i` tests exactly what the block takes from outside. */
  ghost predicate TestsWhatItTakes(bb: BasicBlock, order: seq<Selected>, i: nat) {
    i < |order| && forall v :: v in order[i].args <==> FromOutside(CodeNow(bb, order, i), order[i], v)
  }

  ghost predicate AllTestWhatTheyTake(bb: BasicBlock, order: seq<Selected>) {
    forall i: nat | i < |order| :: TestsWhatItTakes(bb, order, i)
  }

  /** When it is lowered, the guard of every block tests at least what the block takes. */
  ghost predicate AllCover(bb: BasicBlock, order: seq<Selected>) {
    forall i: nat | i < |order| :: Covers(CodeNow(bb, order, i), order[i])
  }

  /** No block lowered before block `i` yields what block `i` begins with. */
  ghost predicate LoweredInTime(bb: BasicBlock, order: seq<Selected>, i: nat) {
    i < |order| && forall j | 0 <= j < i :: !Uses(bb, order[i].first, Local(order[j].last))
  }

  /** No block is lowered before one that begins with its result. */
  ghost predicate ConsumersFirst(bb: BasicBlock, order: seq<Selected>) {
    forall i: nat | i < |order| :: LoweredInTime(bb, order, i)
  }

  ghost predicate NoForeignResults(bb: BasicBlock, counts: Counts, order: seq<Selected>) {
    forall b, v | b in order :: !ForeignResult(bb, counts, b, v)
  }

  /** No phi node of this pass is in the code yet. */
  ghost predicate NoJoins(bb: BasicBlock) {
    forall k: nat, v | Uses(bb, k, v) :: !v.Join?
  }

  /** Two recorded blocks are the same or lie apart. */
  lemma RecordedApart(bb: BasicBlock, counts: Counts, a: Selected, b: Selected)
    requires Recorded(bb, counts, a) && Recorded(bb, counts, b)
    ensures a == b || Apart(a, b)
  {
    if !Apart(a, b) {
      assert a.last == b.last;
      assert Starts(bb, a.first) && Starts(bb, b.first);
      assert a.first == b.first;
      assert a.args == b.args;
    }
  }

  lemma OrderIsSeparate(bb: BasicBlock, counts: Counts, order: seq<Selected>)
    requires UsedOnce(bb, counts) && LoweringOrder(bb, counts, order)
    ensures Separate(bb, order) && forall b | b in order :: Recorded(bb, counts, b)
  {
    BlocksAreRecorded(bb, counts, ScanTo(bb, counts, |bb|));
    forall b | b in order ensures IsRun(bb, b) && forall v | v in b.args :: !Within(b, v) {
      ArgumentsAreOutside(bb, counts, b);
    }
    forall i, j | 0 <= i < j < |order| ensures Apart(order[i], order[j]) {
      assert order[i] in order && order[j] in order;
      RecordedApart(bb, counts, order[i], order[j]);
    }
  }

  lemma UsesNow(lasts: set<nat>, bb: BasicBlock, k: nat, v: Value)
    ensures Uses(RedirectCode(lasts, bb), k, v) <==> exists u :: Uses(bb, k, u) && Redirect(lasts, u) == v
  {
    if Uses(RedirectCode(lasts, bb), k, v) {
      assert Uses(bb, k, bb[k].l) && Uses(bb, k, bb[k].r);
      assert RedirectCode(lasts, bb)[k] == RedirectInst(lasts, bb[k]);
    }
    if u :| Uses(bb, k, u) && Redirect(lasts, u) == v {
      assert RedirectCode(lasts, bb)[k] == RedirectInst(lasts, bb[k]);
    }
  }

  /** A use that is not another block's result in a later call still names what it did. */
  lemma UseStays(bb: BasicBlock, counts: Counts, order: seq<Selected>, i: nat, k: nat, u: Value)
    requires UsedOnce(bb, counts) && Separate(bb, order) && i < |order| && LoweredInTime(bb, order, i)
    requires order[i].first <= k <= order[i].last && Uses(bb, k, u)
    requires k == order[i].first || u !in counts || !ForeignResult(bb, counts, order[i], u)
    ensures Redirect(Lasts(order[..i]), u) == u
  {
    forall j | 0 <= j < i ensures u != Local(order[j].last) {
      assert order[j] in order && IsArith(bb, order[j].last) && Apart(order[j], order[i]);
    }
  }

  lemma OrderedGuardsFollow(bb: BasicBlock, counts: Counts, order: seq<Selected>)
    requires UsedOnce(bb, counts) && LoweringOrder(bb, counts, order)
    requires NoForeignResults(bb, counts, order) && ConsumersFirst(bb, order)
    ensures AllTestWhatTheyTake(bb, order)
  {
    OrderIsSeparate(bb, counts, order);
    forall i: nat | i < |order| ensures TestsWhatItTakes(bb, order, i) {
      assert order[i] in order && LoweredInTime(bb, order, i);
      forall v | v in order[i].args ensures FromOutside(CodeNow(bb, order, i), order[i], v) {
        TestedIsTaken(bb, counts, order, i, v);
      }
      forall v | FromOutside(CodeNow(bb, order, i), order[i], v) ensures v in order[i].args {
        TakenIsTested(bb, counts, order, i, v);
      }
    }
  }

  lemma CoveringGuardsAreOrdered(bb: BasicBlock, counts: Counts, order: seq<Selected>)
    requires UsedOnce(bb, counts) && NoJoins(bb) && LoweringOrder(bb, counts, order) && AllCover(bb, order)
    ensures NoForeignResults(bb, counts, order) && ConsumersFirst(bb, order)
  {
    OrderIsSeparate(bb, counts, order);
    forall b, v | b in order ensures !ForeignResult(bb, counts, b, v) {
      var i :| 0 <= i < |order| && order[i] == b;
      ForeignResultIsNotTested(bb, counts, order, i, v);
    }
    forall i: nat | i < |order| ensures LoweredInTime(bb, order, i) {
      forall j | 0 <= j < i ensures !Uses(bb, order[i].first, Local(order[j].last)) {
        assert order[j] in order[..i] && order[i] in order && Covers(CodeNow(bb, order, i), order[i]);
        if Uses(bb, order[i].first, Local(order[j].last)) {
          JoinIsNotTested(bb, counts, order, i, order[j], order[i].first);
        }
      }
    }
  }

  /**
   Every guard tests what its block takes at that moment, and then no more than
   that, exactly when no later call of a block uses another call's result from
   outside, and no block is lowered before one that begins with its result.
   */
  lemma GuardsFollowExactlyWhen(bb: BasicBlock, counts: Counts, order: seq<Selected>)
    requires UsedOnce(bb, counts) && NoJoins(bb) && LoweringOrder(bb, counts, order)
    ensures AllCover(bb, order) <==> NoForeignResults(bb, counts, order) && ConsumersFirst(bb, order)
    ensures AllCover(bb, order) <==> AllTestWhatTheyTake(bb, order)
  {
    if AllCover(bb, order) {
      CoveringGuardsAreOrdered(bb, counts, order);
    }
    if NoForeignResults(bb, counts, order) && ConsumersFirst(bb, order) {
      OrderedGuardsFollow(bb, counts, order);
    }
    if AllTestWhatTheyTake(bb, order) {
      TestingCovers(bb, order);
    }
  }

  lemma TestingCovers(bb: BasicBlock, order: seq<Selected>)
    requires AllTestWhatTheyTake(bb, order)
    ensures AllCover(bb, order)
  {
    forall i: nat | i < |order| ensures Covers(CodeNow(bb, order, i), order[i]) {
      assert TestsWhatItTakes(bb, order, i);
    }
  }

  lemma TestedIsTaken(bb: BasicBlock, counts: Counts, order: seq<Selected>, i: nat, v: Value)
    requires UsedOnce(bb, counts) && i < |order| && Recorded(bb, counts, order[i]) && LoweredInTime(bb, order, i)
    requires Separate(bb, order) && v in order[i].args
    ensures FromOutside(CodeNow(bb, order, i), order[i], v)
  {
    var b := order[i];
    assert b in order && Tested(bb, counts, b.first, b.last + 1, v);
    var k: nat :| b.first <= k < b.last + 1 && Uses(bb, k, v) && (k == b.first || v !in counts);
    UseStays(bb, counts, order, i, k, v);
    UsesNow(Lasts(order[..i]), bb, k, v);
  }

  lemma TakenIsTested(bb: BasicBlock, counts: Counts, order: seq<Selected>, i: nat, v: Value)
    requires UsedOnce(bb, counts) && i < |order| && Recorded(bb, counts, order[i]) && LoweredInTime(bb, order, i)
    requires Separate(bb, order) && NoForeignResults(bb, counts, order)
    requires FromOutside(CodeNow(bb, order, i), order[i], v)
    ensures v in order[i].args
  {
    var b, lasts := order[i], Lasts(order[..i]);
    var k: nat :| b.first <= k <= b.last && Uses(CodeNow(bb, order, i), k, v);
    UsesNow(lasts, bb, k, v);
    var u :| Uses(bb, k, u) && Redirect(lasts, u) == v;
    assert b in order && !ForeignResult(bb, counts, b, u);
    UseStays(bb, counts, order, i, k, u);
    assert Tested(bb, counts, b.first, b.last + 1, v);
  }

  lemma ForeignResultIsNotTested(bb: BasicBlock, counts: Counts, order: seq<Selected>, i: nat, v: Value)
    requires UsedOnce(bb, counts) && NoJoins(bb) && i < |order| && Recorded(bb, counts, order[i])
    requires Covers(CodeNow(bb, order, i), order[i])
    ensures !ForeignResult(bb, counts, order[i], v)
  {
    var b, lasts := order[i], Lasts(order[..i]);
    if ForeignResult(bb, counts, b, v) {
      var k: nat :| b.first < k <= b.last && Uses(bb, k, v);
      assert !Tested(bb, counts, b.first, b.last + 1, v);
      UsesNow(lasts, bb, k, Redirect(lasts, v));
      if Redirect(lasts, v) != v {
        JoinIsOutside(bb, counts, order, i, Redirect(lasts, v), k);
      } else {
        assert FromOutside(CodeNow(bb, order, i), b, v);
      }
    }
  }

  lemma JoinIsOutside(bb: BasicBlock, counts: Counts, order: seq<Selected>, i: nat, v: Value, k: nat)
    requires NoJoins(bb) && i < |order| && Recorded(bb, counts, order[i]) && v.Join?
    requires order[i].first <= k <= order[i].last && Uses(CodeNow(bb, order, i), k, v)
    ensures FromOutside(CodeNow(bb, order, i), order[i], v) && v !in order[i].args
  {
    assert !Tested(bb, counts, order[i].first, order[i].last + 1, v);
  }

  lemma JoinIsNotTested(bb: BasicBlock, counts: Counts, order: seq<Selected>, i: nat, a: Selected, k: nat)
    requires NoJoins(bb) && i < |order| && Recorded(bb, counts, order[i]) && a in order[..i]
    requires order[i].first <= k <= order[i].last && Uses(bb, k, Local(a.last))
    ensures !Covers(CodeNow(bb, order, i), order[i])
  {
    var lasts := Lasts(order[..i]);
    assert Redirect(lasts, Local(a.last)) == Join(a.last);
    UsesNow(lasts, bb, k, Join(a.last));
    JoinIsOutside(bb, counts, order, i, Join(a.last), k);
  }

  /** Some input runs through block `i`, as it stands when it is lowered. */
  ghost predicate ComputableWhenLowered(bb: BasicBlock, order: seq<Selected>, i: nat)
    requires i < |order|
  {
    IsRun(CodeNow(bb, order, i), order[i]) && Computable(BlockOf(CodeNow(bb, order, i), order[i]))
  }

  lemma LoweredBlockIsRightExactlyWhen(bb: BasicBlock, order: seq<Selected>, i: nat)
    requires i < |order| && IntegerConstants(bb, order[i]) && ComputableWhenLowered(bb, order, i)
    ensures RightWhenLowered(bb, order, i) <==> Covers(CodeNow(bb, order, i), order[i])
  {
    ConstantsStay(bb, Lasts(order[..i]), order[i]);
    SelectedBlockIsRightExactlyWhen(CodeNow(bb, order, i), order[i]);
  }

  /**
   Each block taken alone, with its operands as they stand when it is lowered and
   any words for them: if their constants are integers and they can be computed, all
   are right on every input without overflow under exactly the same condition.
   */
  lemma BlocksAreRightExactlyWhen(bb: BasicBlock, counts: Counts, order: seq<Selected>)
    requires UsedOnce(bb, counts) && NoJoins(bb) && LoweringOrder(bb, counts, order)
    requires forall b | b in order :: IntegerConstants(bb, b)
    requires forall i: nat | i < |order| :: ComputableWhenLowered(bb, order, i)
    ensures (forall i: nat | i < |order| :: RightWhenLowered(bb, order, i))
            <==> NoForeignResults(bb, counts, order) && ConsumersFirst(bb, order)
  {
    GuardsFollowExactlyWhen(bb, counts, order);
    forall i: nat | i < |order|
      ensures RightWhenLowered(bb, order, i) <==> Covers(CodeNow(bb, order, i), order[i])
    {
      assert order[i] in order && ComputableWhenLowered(bb, order, i);
      LoweredBlockIsRightExactlyWhen(bb, order, i);
    }
  }

  ghost predicate RightWhenLowered(bb: BasicBlock, order: seq<Selected>, i: nat)
    requires i < |order|
  {
    var b, now := order[i], CodeNow(bb, order, i);
    IsRun(now, b) && RightWithoutOverflow(BlockOf(now, b), b.args)
  }

  lemma ConstantsStay(bb: BasicBlock, lasts: set<nat>, b: Selected)
    ensures IntegerConstants(RedirectCode(lasts, bb), b) <==> IntegerConstants(bb, b)
  {
    forall k: nat, w ensures Uses(RedirectCode(lasts, bb), k, Const(w)) <==> Uses(bb, k, Const(w)) {
      UsesNow(lasts, bb, k, Const(w));
    }
  }
}
