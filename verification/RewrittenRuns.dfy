/**
 Running a basic block before and after the arithmetic pass: the chain of helper
 calls, and guarded regions each of which leaves one value at its join.
 */
module RewrittenRuns {
  import opened Tagged
  import opened Ast
  import opened ArithmeticBlocks
  import opened FastPath
  import opened SelectedBlocks
  import opened Lowering
  import opened Rewriting

  /** The values defined so far; a helper that fails; or code that reads a value which is not defined on every path. */
  datatype Run = Running(env: Env) | Aborted | Undefined

  /* ---- Before ---- */

  /** The original code: each call in turn. */
  function ChainTo(call: Overload, bb: BasicBlock, env: Env, k: nat): Run
    requires k <= |bb|
  {
    if k == 0 then Running(env)
    else
      match ChainTo(call, bb, env, k - 1)
      case Running(env') => ChainStep(call, bb[k - 1], k - 1, env')
      case stopped => stopped
  }

  function ChainStep(call: Overload, i: Inst, k: nat, env: Env): Run {
    match i
    case Other(_) => Running(env)
    case Arith(op, l, r) =>
      match Helper(call, op, WordFor(l, env), WordFor(r, env))
      case Fine(w) => Running(env[Local(k) := w])
      case Trapped => Aborted
  }

  /* ---- After ---- */

  /** The region whose last call is `k`. */
  function Position(regions: seq<Region>, k: nat): (i: nat)
    ensures i <= |regions|
    ensures i < |regions| ==> regions[i].block.last == k
    ensures i == |regions| ==> forall j | 0 <= j < |regions| :: regions[j].block.last != k
  {
    if regions == [] then 0
    else if regions[0].block.last == k then 0
    else 1 + Position(regions[1..], k)
  }

  /** What the code of a region reads is defined. */
  predicate Defined(code: BasicBlock, r: Region, env: Env) {
    r.guard <= env.Keys && IsRun(code, r.block) && WellFormed(BlockOf(code, r.block), env)
  }

  /** The guard chooses a path; the phi node at the join holds the result. */
  function RunRegion(call: Overload, code: BasicBlock, r: Region, env: Env): Run {
    if !Defined(code, r, env) then Undefined
    else
      match (if Guard(r.guard, env) then ResultOf(r.fast, r.result, env)
             else SlowResult(call, BlockOf(code, r.block), env))
      case Fine(w) => Running(env[Join(r.block.last) := w])
      case Trapped => Aborted
  }

  /** Regions take the place of their calls; only values that are defined on both paths are kept. */
  function RunTo(call: Overload, code: BasicBlock, regions: seq<Region>, env: Env, k: nat): Run
    requires k <= |code|
  {
    if k == 0 then Running(env)
    else
      match RunTo(call, code, regions, env, k - 1)
      case Running(env') =>
        var i := Position(regions, k - 1);
        if i < |regions| then RunRegion(call, code, regions[i], env') else Running(env')
      case stopped => stopped
  }

  /* ---- Inputs ---- */

  /** Words for everything that is not computed by calls of this basic block. */
  ghost predicate Given(bb: BasicBlock, env: Env) {
    && ValidEnv(env) && (forall v | v in env :: !v.Local? && !v.Join?)
    && (forall k: nat, v | Uses(bb, k, v) && !v.Const? :: if v.Local? then IsArith(bb, v.index) else v in env)
  }

  /** Overloaded operators return integers or objects. */
  ghost predicate ReturnsValues(call: Overload) {
    forall op: ArithOp, l: Word, r: Word ::
      call(op, l, r).Fine? ==> Tag(call(op, l, r).w) == 0 || IsInteger(call(op, l, r).w)
  }

  /** All that the two runs are about. */
  datatype Setting = Setting(
    bb: BasicBlock, counts: Counts, order: seq<Selected>, code: BasicBlock, regions: seq<Region>, call: Overload,
    env: Env)

  /** Code as the two loops leave it, and an input. */
  ghost predicate Prepared(s: Setting) {
    && UsedOnce(s.bb, s.counts) && NoStraddle(s.bb) && NoJoins(s.bb)
    && LoweringOrder(s.bb, s.counts, s.order) && Rewritten(s.bb, s.order, |s.order|, s.code, s.regions)
    && (forall b {:trigger IntegerConstants(s.bb, b)} | b in s.order :: IntegerConstants(s.bb, b))
    && Given(s.bb, s.env) && ReturnsValues(s.call)
  }

  function Chain(s: Setting, k: nat): Run
    requires k <= |s.bb|
  {
    ChainTo(s.call, s.bb, s.env, k)
  }

  predicate IntegerAt(run: Run, v: Value) {
    run.Running? ==> IsInteger(WordFor(v, run.env))
  }

  /** Block `i` is lowered in time, and results of other calls that it does not test are integers when it begins. */
  ghost predicate BlockIsSafe(s: Setting, i: nat) {
    && LoweredInTime(s.bb, s.order, i)
    && forall v | ForeignResult(s.bb, s.counts, s.order[i], v) ::
         s.order[i].first <= |s.bb| && IntegerAt(Chain(s, s.order[i].first), v)
  }

  /** On this input all blocks before call `n` are safe. */
  ghost predicate SafeBefore(s: Setting, n: nat) {
    forall i: nat | i < |s.order| && s.order[i].last < n :: BlockIsSafe(s, i)
  }

  function Rewrite(s: Setting, k: nat): Run
    requires k <= |s.code|
  {
    RunTo(s.call, s.code, s.regions, s.env, k)
  }

  /* ---- In step ---- */

  /** The given words, and at each join before `k` the word that the chain has for the last call of the block. */
  ghost predicate Agree(s: Setting, c: Env, r: Env, k: nat) {
    && ValidEnv(r) && (forall v | v in r :: !v.Local?)
    && (forall v | v in s.env :: v in c && v in r && c[v] == r[v])
    && (forall b | b in s.order && b.last < k ::
          Local(b.last) in c && Join(b.last) in r && c[Local(b.last)] == r[Join(b.last)])
  }

  ghost predicate RunsAgree(s: Setting, chain: Run, rewritten: Run, k: nat) {
    match chain
    case Running(c) => rewritten.Running? && Agree(s, c, rewritten.env, k)
    case _ => rewritten.Aborted?
  }

  ghost predicate InStepAt(s: Setting, k: nat)
    requires k <= |s.bb| == |s.code|
  {
    RunsAgree(s, Chain(s, k), Rewrite(s, k), k)
  }

  /** The fast path, if the guard lets it run, does not leave 61 bits, unless it divides by zero. */
  predicate FitsOrFails(block: Block, guard: set<Value>, env: Env)
    requires WellFormed(block, env)
  {
    !Guard(guard, env) || NoOverflow(block, env) || Fast(block, env, |block|).DivisionByZero?
  }

  /** So it is for block `i` when the rewritten code gets there. */
  predicate FitsAt(s: Setting, i: nat)
    requires i < |s.regions| && s.regions[i].block.last < |s.code|
  {
    var r := s.regions[i];
    match Rewrite(s, r.block.last)
    case Running(env) => Defined(s.code, r, env) ==> FitsOrFails(BlockOf(s.code, r.block), r.guard, env)
    case _ => true
  }

  /* ---- One block ---- */

  lemma Settle(s: Setting)
    requires Prepared(s)
    ensures Separate(s.bb, s.order) && |s.code| == |s.bb| && |s.regions| == |s.order|
    ensures s.code == RedirectCode(Lasts(s.order), s.bb)
    ensures forall b | b in s.order :: Recorded(s.bb, s.counts, b) && IsRun(s.bb, b) && IsRun(s.code, b)
  {
    OrderIsSeparate(s.bb, s.counts, s.order);
    assert s.order[..|s.order|] == s.order;
    forall b | b in s.order ensures IsRun(s.code, b) {
      RunsStay(Lasts(s.order), s.bb, b);
    }
  }

  /** What is known of the lists of a setting that is prepared. */
  ghost predicate Listed(s: Setting) {
    && |s.bb| == |s.code| && |s.order| == |s.regions|
    && (forall i | 0 <= i < |s.order| ::
          s.regions[i].block == s.order[i] && s.order[i].first <= s.order[i].last < |s.code|)
    && (forall i, j | 0 <= i < j < |s.order| :: Apart(s.order[i], s.order[j]))
  }

  lemma RegionIsLowered(s: Setting, i: nat)
    requires Prepared(s) && i < |s.order|
    ensures i < |s.regions| && Lowered(s.code, s.order, i, |s.order|, s.regions[i])
  {
  }

  lemma SettingIsListed(s: Setting)
    requires Prepared(s)
    ensures Listed(s)
  {
    Settle(s);
    forall i | 0 <= i < |s.order|
      ensures s.regions[i].block == s.order[i] && s.order[i].first <= s.order[i].last < |s.code|
    {
      RegionIsLowered(s, i);
      assert s.order[i] in s.order && IsArith(s.bb, s.order[i].last);
    }
  }

  /** A result that a block takes from another one is the last of that block. */
  lemma TakenIsLast(s: Setting, b: Selected, k: nat, j: nat) returns (a: Selected)
    requires Prepared(s) && b in s.order && b.first <= k <= b.last && Uses(s.bb, k, Local(j)) && j < b.first
    ensures a in s.order && a.last == j
  {
    Settle(s);
    var scan := ScanTo(s.bb, s.counts, |s.bb|);
    assert IsArith(s.bb, j);
    a := CallIsRecorded(s.bb, s.counts, scan, j);
    BlockIsSound(s.bb, s.counts, a);
    RecordedApart(s.bb, s.counts, a, b);
    assert Local(j) in s.counts;
    assert forall q: nat | Uses(s.bb, q, Local(j)) :: q == k;
    assert UsedBy(s.bb, j, a.last) ==> k <= a.last;
  }

  lemma OwnResultStays(s: Setting, b: Selected, k: nat, j: nat)
    requires Prepared(s) && b in s.order && b.first <= k <= b.last && Uses(s.bb, k, Local(j)) && b.first <= j
    ensures j < k && Redirect(Lasts(s.order), Local(j)) == Local(j)
  {
    Settle(s);
    forall a | a in s.order ensures a.last != j {
      RecordedApart(s.bb, s.counts, a, b);
    }
  }

  /** The words of the calls from `first` on, and nothing else changed. */
  ghost predicate Since(c: Env, c': Env, first: nat, ws: seq<Word>) {
    && (forall j: nat | first <= j < first + |ws| :: Local(j) in c' && c'[Local(j)] == ws[j - first])
    && (forall v | v in c && !(v.Local? && first <= v.index) :: v in c' && c'[v] == c[v])
  }

  /** An operand of the final code: a result of the block, a constant, or a word that the chain has for it. */
  predicate Reads(b: Selected, o: Operand, v: Value, n: nat, c: Env, r: Env) {
    && OperandOk(o, n, r)
    && (match o
        case Computed(i) => v == Local(b.first + i)
        case Constant(w) => v == Const(w)
        case Outside(x) => r[x] == WordFor(v, c) && v in c && !v.Const? && !(v.Local? && b.first <= v.index))
  }

  lemma OperandIs(s: Setting, b: Selected, c: Env, r: Env, k: nat, v: Value, o: Operand)
    requires Prepared(s) && b in s.order && Agree(s, c, r, b.first) && b.first <= k <= b.last && Uses(s.bb, k, v)
    requires o == OperandOf(b, Redirect(Lasts(s.order), v))
    ensures Reads(b, o, v, k - b.first, c, r)
  {
    if v.Local? {
      if v.index < b.first {
        var a := TakenIsLast(s, b, k, v.index);
      } else {
        OwnResultStays(s, b, k, v.index);
      }
    }
  }

  lemma CallRedirects(bb: BasicBlock, lasts: set<nat>, b: Selected, n: nat)
    requires IsRun(bb, b) && b.first + n <= b.last && IsRun(RedirectCode(lasts, bb), b)
    ensures IsArith(bb, b.first + n)
    ensures var i := bb[b.first + n];
            BlockOf(RedirectCode(lasts, bb), b)[n]
            == Call(i.op, OperandOf(b, Redirect(lasts, i.l)), OperandOf(b, Redirect(lasts, i.r)))
  {
    assert IsArith(bb, b.first + n);
  }

  /** Call `n` of a block reads, in the final code, what it reads in the original. */
  predicate CallReadsAs(bb: BasicBlock, b: Selected, call: Call, n: nat, c: Env, r: Env) {
    && IsArith(bb, b.first + n) && call.op == bb[b.first + n].op
    && Reads(b, call.lhs, bb[b.first + n].l, n, c, r) && Reads(b, call.rhs, bb[b.first + n].r, n, c, r)
  }

  ghost predicate Corresponds(bb: BasicBlock, b: Selected, block: Block, c: Env, r: Env) {
    forall n: nat | n < |block| :: CallReadsAs(bb, b, block[n], n, c, r)
  }

  lemma CallIs(s: Setting, b: Selected, c: Env, r: Env, n: nat)
    requires Prepared(s) && b in s.order && Agree(s, c, r, b.first) && IsRun(s.code, b) && b.first + n <= b.last
    ensures CallReadsAs(s.bb, b, BlockOf(s.code, b)[n], n, c, r)
  {
    Settle(s);
    CallRedirects(s.bb, Lasts(s.order), b, n);
    var i, call := s.bb[b.first + n], BlockOf(s.code, b)[n];
    OperandIs(s, b, c, r, b.first + n, i.l, call.lhs);
    OperandIs(s, b, c, r, b.first + n, i.r, call.rhs);
  }

  lemma BlockCorresponds(s: Setting, b: Selected, c: Env, r: Env, block: Block)
    requires Prepared(s) && b in s.order && Agree(s, c, r, b.first) && IsRun(s.code, b) && block == BlockOf(s.code, b)
    ensures Corresponds(s.bb, b, block, c, r)
  {
    forall n: nat | n < |block| ensures CallReadsAs(s.bb, b, block[n], n, c, r) {
      CallIs(s, b, c, r, n);
    }
  }

  lemma CorrespondingReads(bb: BasicBlock, b: Selected, block: Block, c: Env, r: Env)
    requires Corresponds(bb, b, block, c, r)
    ensures WellFormed(block, r)
  {
    forall n | 0 <= n < |block| ensures OperandOk(block[n].lhs, n, r) && OperandOk(block[n].rhs, n, r) {
      assert CallReadsAs(bb, b, block[n], n, c, r);
    }
  }

  /** What the chain and the helpers of a block have done: the same, so far. */
  ghost predicate SameSoFar(b: Selected, c: Env, chain: Run, slow: Words) {
    match slow
    case Words(ws) => chain.Running? && Since(c, chain.env, b.first, ws)
    case Stopped => chain == Aborted
  }

  /** The helper calls of a block are those of the original code. */
  lemma {:induction false} SlowIsChain(
    s: Setting, b: Selected, c: Env, r: Env, n: nat, block: Block, chain: Run, slow: Words)
    requires Corresponds(s.bb, b, block, c, r) && n <= |block| && WellFormed(block, r)
    requires b.first + n <= |s.bb| && Chain(s, b.first) == Running(c)
    requires chain == Chain(s, b.first + n) && slow == Slow(s.call, block, r, n)
    ensures SameSoFar(b, c, chain, slow)
    decreases n
  {
    if n == 0 {
      SameAtFirst(s.call, b, c, r, block, chain, slow);
    } else {
      var chain', slow' := Chain(s, b.first + n - 1), Slow(s.call, block, r, n - 1);
      SlowIsChain(s, b, c, r, n - 1, block, chain', slow');
      NextCall(s, b, c, r, n - 1, block, chain', slow', chain, slow);
    }
  }

  lemma SameAtFirst(call: Overload, b: Selected, c: Env, r: Env, block: Block, chain: Run, slow: Words)
    requires WellFormed(block, r) && chain == Running(c) && slow == Slow(call, block, r, 0)
    ensures SameSoFar(b, c, chain, slow)
  {
  }

  lemma NextCall(
    s: Setting, b: Selected, c: Env, r: Env, n: nat, block: Block, chain: Run, slow: Words, chain': Run, slow': Words)
    requires Corresponds(s.bb, b, block, c, r) && n < |block| && WellFormed(block, r) && b.first + n < |s.bb|
    requires chain == Chain(s, b.first + n) && chain' == Chain(s, b.first + n + 1)
    requires slow == Slow(s.call, block, r, n) && slow' == Slow(s.call, block, r, n + 1)
    requires SameSoFar(b, c, chain, slow)
    ensures SameSoFar(b, c, chain', slow')
  {
    assert CallReadsAs(s.bb, b, block[n], n, c, r);
    ChainUnfolds(s, b.first + n, chain, chain');
    HelperIsCall(s.call, b, s.bb[b.first + n], n, c, chain, block, r, chain', slow, slow');
  }

  lemma ChainUnfolds(s: Setting, k: nat, chain: Run, chain': Run)
    requires k < |s.bb| && chain == Chain(s, k) && chain' == Chain(s, k + 1)
    ensures chain' == if chain.Running? then ChainStep(s.call, s.bb[k], k, chain.env) else chain
  {
  }

  lemma HelperIsCall(
    call: Overload, b: Selected, i: Inst, n: nat, c: Env, chain: Run, block: Block, r: Env, chain': Run, slow: Words,
    slow': Words)
    requires WellFormed(block, r) && n < |block| && i.Arith? && block[n].op == i.op
    requires Reads(b, block[n].lhs, i.l, n, c, r) && Reads(b, block[n].rhs, i.r, n, c, r)
    requires slow == Slow(call, block, r, n) && slow' == Slow(call, block, r, n + 1)
    requires chain' == if chain.Running? then ChainStep(call, i, b.first + n, chain.env) else chain
    requires SameSoFar(b, c, chain, slow)
    ensures SameSoFar(b, c, chain', slow')
  {
    if chain.Running? {
      assert WordOf(block[n].lhs, slow.ws, r) == WordFor(i.l, chain.env);
      assert WordOf(block[n].rhs, slow.ws, r) == WordFor(i.r, chain.env);
      if chain'.Running? {
        SinceAppend(c, chain.env, b.first, slow.ws, chain'.env, slow'.ws);
      }
    }
  }

  lemma SinceAppend(c: Env, c': Env, first: nat, ws: seq<Word>, next: Env, all: seq<Word>)
    requires Since(c, c', first, ws) && |all| == |ws| + 1 && all[..|ws|] == ws
    requires next == c'[Local(first + |ws|) := all[|ws|]]
    ensures Since(c, next, first, all)
  {
    forall j: nat | first <= j < first + |all| ensures Local(j) in next && next[Local(j)] == all[j - first] {
      assert j < first + |ws| ==> all[j - first] == ws[j - first];
    }
  }

  /* ---- Guards of the final code ---- */

  /** The redirections before the lowering of a block do not touch what it has to test. */
  lemma TestRedirects(s: Setting, i: nat, k: nat, u: Value)
    requires Prepared(s) && LoweredInTime(s.bb, s.order, i)
    requires s.order[i].first <= k <= s.order[i].last && Uses(s.bb, k, u)
    requires k == s.order[i].first || u !in s.counts || !ForeignResult(s.bb, s.counts, s.order[i], u)
    ensures Redirect(Lasts(s.order[i..]), u) == Redirect(Lasts(s.order), u)
  {
    Settle(s);
    UseStays(s.bb, s.counts, s.order, i, k, u);
    assert s.order[..i] + s.order[i..] == s.order;
    assert Lasts(s.order[..i]) + Lasts(s.order[i..]) == Lasts(s.order);
  }

  lemma GuardIs(s: Setting, i: nat)
    requires Prepared(s) && i < |s.order|
    ensures i < |s.regions| && s.regions[i].guard == RedirectAll(Lasts(s.order[i..]), s.order[i].args)
  {
    RegionIsLowered(s, i);
    assert s.order[i..|s.order|] == s.order[i..];
  }

  /** What the guard tests is defined. */
  lemma TestedIsDefined(s: Setting, i: nat, c: Env, r: Env, v: Value) returns (k: nat)
    requires Prepared(s) && LoweredInTime(s.bb, s.order, i)
    requires Agree(s, c, r, s.order[i].first) && v in s.order[i].args
    ensures s.order[i].first <= k <= s.order[i].last && Uses(s.bb, k, v)
    ensures k == s.order[i].first || v !in s.counts
    ensures Redirect(Lasts(s.order[i..]), v) in r && r[Redirect(Lasts(s.order[i..]), v)] == WordFor(v, c)
  {
    var b := s.order[i];
    Settle(s);
    assert b in s.order;
    ArgumentsAreOutside(s.bb, s.counts, b);
    assert Tested(s.bb, s.counts, b.first, b.last + 1, v);
    k :| b.first <= k < b.last + 1 && Uses(s.bb, k, v) && (k == b.first || v !in s.counts);
    TestRedirects(s, i, k, v);
    OperandIs(s, b, c, r, k, v, OperandOf(b, Redirect(Lasts(s.order), v)));
  }

  /** What a block takes is tested or an integer. */
  lemma TakenIsSafe(s: Setting, i: nat, c: Env, r: Env, k: nat, u: Value, x: Value)
    requires Prepared(s) && BlockIsSafe(s, i) && Agree(s, c, r, s.order[i].first)
    requires s.order[i].first <= |s.bb| && Chain(s, s.order[i].first) == Running(c)
    requires s.order[i].first <= k <= s.order[i].last && Uses(s.bb, k, u)
    requires OperandOf(s.order[i], Redirect(Lasts(s.order), u)) == Outside(x)
    ensures x in RedirectAll(Lasts(s.order[i..]), s.order[i].args) || (x in r && IsInteger(r[x]))
  {
    var b := s.order[i];
    Settle(s);
    assert b in s.order;
    OperandIs(s, b, c, r, k, u, Outside(x));
    if k == b.first || u !in s.counts {
      assert Tested(s.bb, s.counts, b.first, b.last + 1, u);
      TestRedirects(s, i, k, u);
    } else {
      assert !Within(b, u);
      assert ForeignResult(s.bb, s.counts, b, u);
      assert IntegerAt(Chain(s, b.first), u);
    }
  }

  /** Everything the guard tests is defined, and all the block takes is tested or an integer. */
  lemma GuardIsSound(s: Setting, i: nat, c: Env, r: Env)
    requires Prepared(s) && BlockIsSafe(s, i) && i < |s.regions| && Agree(s, c, r, s.order[i].first)
    requires s.order[i].first <= |s.bb| && Chain(s, s.order[i].first) == Running(c)
    requires IsRun(s.code, s.order[i])
    ensures s.regions[i].guard <= r.Keys && Safe(BlockOf(s.code, s.order[i]), s.regions[i].guard, r)
  {
    var b, block := s.order[i], BlockOf(s.code, s.order[i]);
    GuardIs(s, i);
    forall w | w in s.regions[i].guard ensures w in r {
      var v :| v in b.args && w == Redirect(Lasts(s.order[i..]), v);
      var k := TestedIsDefined(s, i, c, r, v);
    }
    forall x | UsedIn(block, Outside(x)) ensures x in s.regions[i].guard || (x in r && IsInteger(r[x])) {
      OutsideIsSafe(s, i, c, r, x);
    }
    forall w | UsedIn(block, Constant(w)) ensures IsInteger(w) {
      ConstantIsInteger(s, b, w);
    }
  }

  lemma OutsideIsSafe(s: Setting, i: nat, c: Env, r: Env, x: Value)
    requires Prepared(s) && BlockIsSafe(s, i) && Agree(s, c, r, s.order[i].first)
    requires IsRun(s.code, s.order[i])
    requires s.order[i].first <= |s.bb| && Chain(s, s.order[i].first) == Running(c)
    requires UsedIn(BlockOf(s.code, s.order[i]), Outside(x))
    ensures x in RedirectAll(Lasts(s.order[i..]), s.order[i].args) || (x in r && IsInteger(r[x]))
  {
    var b, block := s.order[i], BlockOf(s.code, s.order[i]);
    Settle(s);
    assert b in s.order;
    var n :| 0 <= n < |block| && (block[n].lhs == Outside(x) || block[n].rhs == Outside(x));
    CallRedirects(s.bb, Lasts(s.order), b, n);
    var inst := s.bb[b.first + n];
    TakenIsSafe(s, i, c, r, b.first + n, if block[n].lhs == Outside(x) then inst.l else inst.r, x);
  }

  lemma ConstantIsInteger(s: Setting, b: Selected, w: Word)
    requires Prepared(s) && b in s.order && IsRun(s.code, b) && UsedIn(BlockOf(s.code, b), Constant(w))
    ensures IsInteger(w)
  {
    Settle(s);
    var block := BlockOf(s.code, b);
    var n :| 0 <= n < |block| && (block[n].lhs == Constant(w) || block[n].rhs == Constant(w));
    CallRedirects(s.bb, Lasts(s.order), b, n);
    assert IntegerConstants(s.bb, b) && Uses(s.bb, b.first + n, Const(w));
  }

  /* ---- Whole runs ---- */

  /** What a region leaves is a word as the helpers return it. */
  lemma SlowIsValue(call: Overload, block: Block, env: Env, n: nat)
    requires WellFormed(block, env) && ReturnsValues(call) && n < |block| && Slow(call, block, env, n + 1).Words?
    ensures var w := Slow(call, block, env, n + 1).ws[n];
            Tag(w) == 0 || IsInteger(w)
  {
    var ws := Slow(call, block, env, n).ws;
    assert OperandOk(block[n].lhs, n, env) && OperandOk(block[n].rhs, n, env);
    var l, r := WordOf(block[n].lhs, ws, env), WordOf(block[n].rhs, ws, env);
    assert Helper(call, block[n].op, l, r) == Fine(Slow(call, block, env, n + 1).ws[n]);
    if IsInteger(l) && IsInteger(r) && TaggedArith(block[n].op, l, r).Fine? {
      HelperTags(block[n].op, l, r);
    }
  }

  lemma HelperTags(op: ArithOp, l: Word, r: Word)
    requires TaggedArith(op, l, r).Fine?
    ensures IsInteger(TaggedArith(op, l, r).w)
  {
  }

  /** The region of a block is found at its last call, and no other one inside the block. */
  lemma OwnPosition(s: Setting, i: nat, k: nat)
    requires Listed(s) && i < |s.order| && s.order[i].first <= k <= s.order[i].last
    ensures Position(s.regions, k) == if k == s.order[i].last then i else |s.regions|
  {
    var p := Position(s.regions, k);
    forall j | 0 <= j < |s.order| && j != i ensures s.regions[j].block.last != k {
      assert if i < j then Apart(s.order[i], s.order[j]) else Apart(s.order[j], s.order[i]);
    }
  }

  /** While the calls of a block run, nothing is joined; at its last call its own region is run. */
  lemma {:induction false} NothingEnds(s: Setting, i: nat, k: nat)
    requires Listed(s) && i < |s.order| && s.order[i].first <= k <= s.order[i].last
    ensures Rewrite(s, k) == Rewrite(s, s.order[i].first)
    decreases k
  {
    if k > s.order[i].first {
      NothingEnds(s, i, k - 1);
      OwnPosition(s, i, k - 1);
    }
  }

  function Joined(v: Checked, last: nat, env: Env): Run {
    match v
    case Fine(w) => Running(env[Join(last) := w])
    case Trapped => Aborted
  }

  /** The region of a block whose operands agree with the chain is a choice between its two paths. */
  lemma RegionIsJoin(s: Setting, i: nat, c: Env, r: Env)
    requires Prepared(s) && BlockIsSafe(s, i) && Agree(s, c, r, s.order[i].first)
    requires s.order[i].first <= |s.bb| && Chain(s, s.order[i].first) == Running(c)
    ensures i < |s.regions| && s.regions[i].block == s.order[i] && IsRun(s.code, s.order[i])
    ensures var b, g, block := s.order[i], s.regions[i].guard, BlockOf(s.code, s.order[i]);
            && Defined(s.code, s.regions[i], r) && Safe(block, g, r)
            && RunRegion(s.call, s.code, s.regions[i], r) == Joined(JoinResult(s.call, block, r, g), b.last, r)
            && Corresponds(s.bb, b, block, c, r)
  {
    Settle(s);
    RegionIsLowered(s, i);
    assert s.order[i] in s.order;
    BlockCorresponds(s, s.order[i], c, r, BlockOf(s.code, s.order[i]));
    CorrespondingReads(s.bb, s.order[i], BlockOf(s.code, s.order[i]), c, r);
    GuardIsSound(s, i, c, r);
  }

  /** A block among others that lie apart from it, given words that are no results. */
  ghost predicate Alone(s: Setting, b: Selected) {
    && b in s.order && ReturnsValues(s.call) && (forall v | v in s.env :: !v.Local? && !v.Join?)
    && (forall a | a in s.order :: a.first <= a.last && (a == b || Apart(a, b)))
  }

  lemma BlocksAreAlone(s: Setting, b: Selected)
    requires Prepared(s) && b in s.order
    ensures Alone(s, b)
  {
    Settle(s);
    forall a | a in s.order ensures a.first <= a.last && (a == b || Apart(a, b)) {
      RecordedApart(s.bb, s.counts, a, b);
    }
  }

  lemma AgreeAfter(s: Setting, b: Selected, c: Env, r: Env, c': Env, r': Env, ws: seq<Word>)
    requires Alone(s, b) && b.first <= b.last && Agree(s, c, r, b.first) && Since(c, c', b.first, ws)
    requires 0 < |ws| == b.last - b.first + 1 && (Tag(ws[|ws| - 1]) == 0 || IsInteger(ws[|ws| - 1]))
    requires r' == r[Join(b.last) := ws[|ws| - 1]]
    ensures Agree(s, c', r', b.last + 1)
  {
    forall a | a in s.order && a.last < b.last + 1
      ensures Local(a.last) in c' && Join(a.last) in r' && c'[Local(a.last)] == r'[Join(a.last)]
    {
      assert a == b || a.last < b.first;
    }
  }

  /** The two runs agree after a block exactly when both paths give one result. */
  lemma ResultsAgree(s: Setting, b: Selected, c: Env, r: Env, chain: Run, slow: Words, result: Checked, v: Checked)
    requires Alone(s, b) && b.first <= b.last && Agree(s, c, r, b.first) && SameSoFar(b, c, chain, slow)
    requires slow.Words? ==> 0 < |slow.ws| == b.last - b.first + 1
    requires slow.Words? ==> Tag(slow.ws[|slow.ws| - 1]) == 0 || IsInteger(slow.ws[|slow.ws| - 1])
    requires result == if slow.Words? then Fine(slow.ws[|slow.ws| - 1]) else Trapped
    ensures RunsAgree(s, chain, Joined(v, b.last, r), b.last + 1) <==> v == result
  {
    if slow.Words? && v.Fine? {
      if v == result {
        AgreeAfter(s, b, c, r, chain.env, Joined(v, b.last, r).env, slow.ws);
      } else {
        assert chain.env[Local(b.last)] == slow.ws[b.last - b.first];
      }
    }
  }

  /** If no helper fails, the fast path fits. */
  lemma FinishedFits(call: Overload, block: Block, env: Env, guard: set<Value>)
    requires WellFormed(block, env) && ValidEnv(env) && Safe(block, guard, env)
    requires Slow(call, block, env, |block|).Words?
    ensures FitsOrFails(block, guard, env)
  {
    if Guard(guard, env) {
      PathsInStep(call, block, env, guard, |block|);
    }
  }

  /** Over one block the runs stay in step exactly when the fast path, if it is taken, fits. */
  lemma JoinAgrees(s: Setting, b: Selected, c: Env, r: Env, block: Block, guard: set<Value>, chain: Run, slow: Words)
    requires Alone(s, b) && Agree(s, c, r, b.first)
    requires 0 < |block| == b.last - b.first + 1 && WellFormed(block, r) && Safe(block, guard, r)
    requires slow == Slow(s.call, block, r, |block|) && SameSoFar(b, c, chain, slow)
    ensures RunsAgree(s, chain, Joined(JoinResult(s.call, block, r, guard), b.last, r), b.last + 1)
            <==> FitsOrFails(block, guard, r)
    ensures chain.Running? ==> FitsOrFails(block, guard, r)
  {
    FastRefinesSlow(s.call, block, r, guard);
    if slow.Words? {
      FinishedFits(s.call, block, r, guard);
      SlowIsValue(s.call, block, r, |block| - 1);
    }
    ResultsAgree(s, b, c, r, chain, slow, SlowResult(s.call, block, r), JoinResult(s.call, block, r, guard));
  }

  /** What the rewritten code does up to the end of a block. */
  lemma RegionRuns(s: Setting, i: nat, c: Env, r: Env, b: Selected)
    returns (block: Block, guard: set<Value>, rewritten: Run)
    requires Prepared(s) && BlockIsSafe(s, i) && b == s.order[i] && b.first <= b.last < |s.code| && i < |s.regions|
    requires Rewrite(s, b.first) == Running(r) && Agree(s, c, r, b.first) && s.regions[i].block == b
    requires b.first <= |s.bb| && Chain(s, b.first) == Running(c)
    ensures Corresponds(s.bb, b, block, c, r) && Safe(block, guard, r) && WellFormed(block, r)
    ensures 0 < |block| == b.last - b.first + 1 && Alone(s, b)
    ensures rewritten == Rewrite(s, b.last + 1) == Joined(JoinResult(s.call, block, r, guard), b.last, r)
    ensures FitsAt(s, i) <==> FitsOrFails(block, guard, r)
  {
    RegionIsJoin(s, i, c, r);
    SettingIsListed(s);
    NothingEnds(s, i, b.last);
    OwnPosition(s, i, b.last);
    BlocksAreAlone(s, b);
    block, guard, rewritten := BlockOf(s.code, b), s.regions[i].guard, Rewrite(s, b.last + 1);
  }

  lemma BlockStep(
    s: Setting, b: Selected, c: Env, r: Env, block: Block, guard: set<Value>, chain: Run, rewritten: Run)
    requires Corresponds(s.bb, b, block, c, r) && Safe(block, guard, r) && WellFormed(block, r)
    requires 0 < |block| == b.last - b.first + 1 && Alone(s, b) && Agree(s, c, r, b.first)
    requires b.last < |s.bb| && Chain(s, b.first) == Running(c) && chain == Chain(s, b.last + 1)
    requires rewritten == Joined(JoinResult(s.call, block, r, guard), b.last, r)
    ensures RunsAgree(s, chain, rewritten, b.last + 1) <==> FitsOrFails(block, guard, r)
    ensures chain.Running? ==> FitsOrFails(block, guard, r)
  {
    var slow := Slow(s.call, block, r, |block|);
    SlowIsChain(s, b, c, r, |block|, block, chain, slow);
    JoinAgrees(s, b, c, r, block, guard, chain, slow);
  }

  /** Outside blocks nothing is computed. */
  lemma NothingBetween(s: Setting, k: nat)
    requires Prepared(s) && k < |s.bb| && forall b | b in s.order :: !(b.first <= k <= b.last)
    ensures |s.code| == |s.bb| && Chain(s, k + 1) == Chain(s, k) && Rewrite(s, k + 1) == Rewrite(s, k)
  {
    Settle(s);
    if IsArith(s.bb, k) {
      var b := CallIsRecorded(s.bb, s.counts, ScanTo(s.bb, s.counts, |s.bb|), k);
    }
    forall i | 0 <= i < |s.regions| ensures s.regions[i].block == s.order[i] {
      RegionIsLowered(s, i);
    }
    var p := Position(s.regions, k);
  }

  lemma {:induction false} ChainIsDefined(s: Setting, k: nat)
    requires k <= |s.bb|
    ensures !Chain(s, k).Undefined?
    decreases k
  {
    if k > 0 {
      ChainIsDefined(s, k - 1);
      ChainUnfolds(s, k - 1, Chain(s, k - 1), Chain(s, k));
    }
  }

  lemma {:induction false} AbortedStays(s: Setting, k: nat, n: nat)
    requires k <= n <= |s.bb| == |s.code| && Chain(s, k) == Aborted && Rewrite(s, k) == Aborted
    ensures Chain(s, n) == Aborted && Rewrite(s, n) == Aborted
    decreases n
  {
    if k < n {
      AbortedStays(s, k, n - 1);
    }
  }

  lemma RunningBlock(s: Setting, i: nat, b: Selected, c: Env, r: Env)
    requires Prepared(s) && BlockIsSafe(s, i) && Listed(s) && b == s.order[i]
    requires Chain(s, b.first) == Running(c) && Rewrite(s, b.first) == Running(r) && Agree(s, c, r, b.first)
    ensures InStepAt(s, b.last + 1) <==> FitsAt(s, i)
    ensures Chain(s, b.last + 1).Running? ==> FitsAt(s, i)
  {
    var block, guard, rewritten := RegionRuns(s, i, c, r, b);
    BlockStep(s, b, c, r, block, guard, Chain(s, b.last + 1), rewritten);
  }

  lemma AbortedBlock(s: Setting, i: nat, b: Selected)
    requires Listed(s) && i < |s.order| && b == s.order[i]
    requires Chain(s, b.first) == Aborted && Rewrite(s, b.first) == Aborted
    ensures InStepAt(s, b.last + 1) && FitsAt(s, i)
  {
    AbortedStays(s, b.first, b.last);
    AbortedAgrees(s, b.last);
    AbortedFits(s, i);
  }

  lemma AbortedAgrees(s: Setting, k: nat)
    requires |s.bb| == |s.code| && k < |s.bb| && Chain(s, k) == Aborted && Rewrite(s, k) == Aborted
    ensures InStepAt(s, k + 1)
  {
    ChainUnfolds(s, k, Chain(s, k), Chain(s, k + 1));
  }

  lemma AbortedFits(s: Setting, i: nat)
    requires i < |s.regions| && s.regions[i].block.last < |s.code| && Rewrite(s, s.regions[i].block.last) == Aborted
    ensures FitsAt(s, i)
  {
  }

  lemma StepOverBlock(s: Setting, i: nat, b: Selected)
    requires Prepared(s) && BlockIsSafe(s, i) && Listed(s) && b == s.order[i] && InStepAt(s, b.first)
    ensures InStepAt(s, b.last + 1) <==> FitsAt(s, i)
    ensures Chain(s, b.last + 1).Running? ==> FitsAt(s, i)
  {
    ChainIsDefined(s, b.first);
    if Chain(s, b.first).Running? {
      RunningBlock(s, i, b, Chain(s, b.first).env, Rewrite(s, b.first).env);
    } else {
      AbortedBlock(s, i, b);
    }
  }

  /* ---- From block to block ---- */

  /** Before call `k` no block has begun and not ended. */
  ghost predicate Between(order: seq<Selected>, k: nat) {
    forall i | 0 <= i < |order| :: !(order[i].first < k <= order[i].last)
  }

  ghost predicate Quiet(order: seq<Selected>, k: nat) {
    forall i | 0 <= i < |order| :: !(order[i].first <= k <= order[i].last)
  }

  /**
   Blocks as dominoes: at each call, whether the runs are in step and whether the
   chain is running; for each block before call `n`, whether it fits.
   */
  ghost predicate Dominoes(order: seq<Selected>, step: seq<bool>, running: seq<bool>, fits: seq<bool>, n: nat) {
    && n < |step| == |running| && |fits| == |order| && step[0]
    && (forall i | 0 <= i < |order| :: order[i].first <= order[i].last < |step| - 1)
    && (forall i, j | 0 <= i < j < |order| :: Apart(order[i], order[j]))
    && (forall k | 0 <= k < |step| - 1 && running[k + 1] :: running[k])
    && (forall k | 0 <= k < |step| - 1 && Quiet(order, k) :: step[k + 1] == step[k])
    && (forall i | 0 <= i < |order| && order[i].last < n && step[order[i].first] ::
          (step[order[i].last + 1] <==> fits[i]) && (running[order[i].last + 1] ==> fits[i]))
  }

  predicate FitBefore(order: seq<Selected>, fits: seq<bool>, k: nat)
    requires |fits| == |order|
  {
    forall i | 0 <= i < |order| && order[i].last < k :: fits[i]
  }

  predicate StepsBefore(order: seq<Selected>, step: seq<bool>, k: nat)
    requires forall i | 0 <= i < |order| :: order[i].last < |step| - 1
  {
    forall i | 0 <= i < |order| && order[i].last < k :: step[order[i].last + 1]
  }

  lemma {:induction false} RunningBefore(running: seq<bool>, k: nat, n: nat)
    requires (forall k | 0 <= k < |running| - 1 && running[k + 1] :: running[k]) && k <= n < |running| && running[n]
    ensures running[k]
    decreases n
  {
    if k < n {
      RunningBefore(running, k, n - 1);
    }
  }

  lemma OneMoreBlock(
    order: seq<Selected>, step: seq<bool>, running: seq<bool>, fits: seq<bool>, n: nat, i: nat)
    requires Dominoes(order, step, running, fits, n) && i < |order|
    ensures var last, first := order[i].last, order[i].first;
            && (StepsBefore(order, step, last + 1) <==> StepsBefore(order, step, first) && step[last + 1])
            && (FitBefore(order, fits, last + 1) <==> FitBefore(order, fits, first) && fits[i])
            && Between(order, first) && Between(order, last + 1)
  {
    forall j | 0 <= j < |order| && j != i
      ensures order[j].last < order[i].last + 1 <==> order[j].last < order[i].first
      ensures !(order[j].first < order[i].first <= order[j].last)
      ensures !(order[j].first < order[i].last + 1 <= order[j].last)
    {
      assert if i < j then Apart(order[i], order[j]) else Apart(order[j], order[i]);
    }
  }

  /** All are in step exactly when all fit; then they are at the end, and a chain that is running there says so. */
  lemma {:induction false} DominoesFall(
    order: seq<Selected>, step: seq<bool>, running: seq<bool>, fits: seq<bool>, n: nat, k: nat)
    requires Dominoes(order, step, running, fits, n) && k <= n && Between(order, k)
    ensures StepsBefore(order, step, k) <==> FitBefore(order, fits, k)
    ensures FitBefore(order, fits, k) ==> step[k]
    ensures running[k] ==> FitBefore(order, fits, k)
    decreases k
  {
    if k == 0 {
    } else if i :| 0 <= i < |order| && order[i].last == k - 1 {
      OneMoreBlock(order, step, running, fits, n, i);
      DominoesFall(order, step, running, fits, n, order[i].first);
      if running[k] {
        RunningBefore(running, order[i].first, k);
      }
    } else {
      assert Quiet(order, k - 1);
      DominoesFall(order, step, running, fits, n, k - 1);
      assert StepsBefore(order, step, k) <==> StepsBefore(order, step, k - 1);
      assert FitBefore(order, fits, k) <==> FitBefore(order, fits, k - 1);
    }
  }

  /** The two runs are such dominoes. */
  lemma RunsAreDominoes(s: Setting, step: seq<bool>, running: seq<bool>, fits: seq<bool>, n: nat)
    requires Prepared(s) && Listed(s) && |step| == |running| == |s.bb| + 1 && |fits| == |s.order| && n <= |s.bb|
    requires SafeBefore(s, n)
    requires forall k | 0 <= k < |step| :: step[k] == InStepAt(s, k) && running[k] == Chain(s, k).Running?
    requires forall i | 0 <= i < |fits| :: fits[i] == FitsAt(s, i)
    ensures Dominoes(s.order, step, running, fits, n)
  {
    assert step[0] by {
      StartsInStep(s);
    }
    forall k | 0 <= k < |step| - 1 && running[k + 1] ensures running[k] {
      ChainUnfolds(s, k, Chain(s, k), Chain(s, k + 1));
    }
    forall k | 0 <= k < |step| - 1 && Quiet(s.order, k) ensures step[k + 1] == step[k] {
      QuietStep(s, k);
    }
    forall i | 0 <= i < |s.order| && s.order[i].last < n && step[s.order[i].first]
      ensures step[s.order[i].last + 1] <==> fits[i]
      ensures running[s.order[i].last + 1] ==> fits[i]
    {
      assert BlockIsSafe(s, i);
      StepOverBlock(s, i, s.order[i]);
    }
  }

  lemma StartsInStep(s: Setting)
    requires Prepared(s) && Listed(s)
    ensures InStepAt(s, 0)
  {
  }

  lemma QuietStep(s: Setting, k: nat)
    requires Prepared(s) && Listed(s) && k < |s.bb| && Quiet(s.order, k)
    ensures InStepAt(s, k + 1) == InStepAt(s, k)
  {
    assert forall b | b in s.order :: !(b.first <= k <= b.last);
    NothingBetween(s, k);
    assert forall b | b in s.order :: b.last < k + 1 <==> b.last < k;
  }

  /** Before call `k` every block that has been reached fits. */
  predicate BlocksFit(s: Setting, k: nat)
    requires Listed(s)
  {
    forall i {:trigger FitsAt(s, i)} | 0 <= i < |s.order| && s.order[i].last < k :: FitsAt(s, i)
  }

  /** Before call `k` the runs are in step at the end of every block. */
  ghost predicate BlocksInStep(s: Setting, k: nat)
    requires Listed(s)
  {
    forall i | 0 <= i < |s.order| && s.order[i].last < k :: InStepAt(s, s.order[i].last + 1)
  }

  /**
   As far as blocks are safe, the rewritten code has after every block what the chain
   of helpers has, or fails where it does, exactly when no fast path that is taken
   leaves 61 bits without dividing by zero. The chain running there says so.
   */
  lemma RewrittenIsRightExactlyWhen(s: Setting, n: nat)
    requires Prepared(s) && n <= |s.bb| && SafeBefore(s, n) && Between(s.order, n)
    ensures Listed(s) && (BlocksInStep(s, n) <==> BlocksFit(s, n)) && (BlocksFit(s, n) ==> InStepAt(s, n))
    ensures Chain(s, n).Running? ==> BlocksFit(s, n)
  {
    SettingIsListed(s);
    var step := seq(|s.bb| + 1, k requires 0 <= k <= |s.bb| => InStepAt(s, k));
    var running := seq(|s.bb| + 1, k requires 0 <= k <= |s.bb| => Chain(s, k).Running?);
    var fits := seq(|s.order|, i requires 0 <= i < |s.order| => FitsAt(s, i));
    RunsAreDominoes(s, step, running, fits, n);
    DominoesFall(s.order, step, running, fits, n, n);
    Translate(s, step, fits, n);
  }

  lemma Translate(s: Setting, step: seq<bool>, fits: seq<bool>, n: nat)
    requires Listed(s) && |step| == |s.bb| + 1 && |fits| == |s.order|
    requires forall k | 0 <= k < |step| :: step[k] == InStepAt(s, k)
    requires forall i | 0 <= i < |fits| :: fits[i] == FitsAt(s, i)
    ensures BlocksInStep(s, n) <==> StepsBefore(s.order, step, n)
    ensures BlocksFit(s, n) <==> FitBefore(s.order, fits, n)
  {
  }

  lemma EndIsBetween(s: Setting)
    requires Listed(s)
    ensures Between(s.order, |s.bb|)
  {
  }

  /** When every guard tests what its block takes, blocks are safe on every input. */
  lemma TestingIsSafe(s: Setting)
    requires Prepared(s) && AllTestWhatTheyTake(s.bb, s.order)
    ensures SafeBefore(s, |s.bb|)
  {
    GuardsFollowExactlyWhen(s.bb, s.counts, s.order);
    forall i: nat | i < |s.order| ensures BlockIsSafe(s, i) {
      assert s.order[i] in s.order && LoweredInTime(s.bb, s.order, i);
    }
  }

  /** Whenever all helpers succeed, so does the rewritten code, and all joins hold the helpers' results. */
  lemma HelpersResultIsKept(s: Setting)
    requires Prepared(s) && SafeBefore(s, |s.bb|) && Chain(s, |s.bb|).Running?
    ensures |s.bb| == |s.code| && Rewrite(s, |s.bb|).Running?
    ensures forall b | b in s.order ::
              var c, r := Chain(s, |s.bb|).env, Rewrite(s, |s.bb|).env;
              Local(b.last) in c && Join(b.last) in r && r[Join(b.last)] == c[Local(b.last)]
  {
    SettingIsListed(s);
    EndIsBetween(s);
    RewrittenIsRightExactlyWhen(s, |s.bb|);
  }

  /* ---- Blocks lowered too early ---- */

  /** No value that is defined on one path only is kept. */
  lemma {:induction false} NoResultIsKept(s: Setting, k: nat)
    requires (forall v | v in s.env :: !v.Local?) && k <= |s.code| && Rewrite(s, k).Running?
    ensures forall v | v in Rewrite(s, k).env :: !v.Local?
    decreases k
  {
    if k > 0 {
      NoResultIsKept(s, k - 1);
    }
  }

  lemma {:induction false} StoppedStays(s: Setting, k: nat, n: nat)
    requires k <= n <= |s.code| && !Rewrite(s, k).Running?
    ensures !Rewrite(s, n).Running?
    decreases n
  {
    if k < n {
      StoppedStays(s, k, n - 1);
    }
  }

  lemma RawResultIsTested(s: Setting, i: nat, j: nat)
    requires Prepared(s) && i < j < |s.order| && Local(s.order[i].last) in s.order[j].args
    ensures j < |s.regions| && Local(s.order[i].last) in s.regions[j].guard
  {
    Settle(s);
    var n := |s.order|;
    assert Lowered(s.code, s.order, j, n, s.regions[j]);
    forall b | b in s.order[j..n] ensures b.last != s.order[i].last {
      var k :| j <= k < n && s.order[k] == b;
      assert Apart(s.order[i], s.order[k]) && s.order[i] in s.order && s.order[k] in s.order;
    }
    assert Redirect(Lasts(s.order[j..n]), Local(s.order[i].last)) == Local(s.order[i].last);
  }

  lemma FirstOperandIsTested(bb: BasicBlock, counts: Counts, b: Selected, v: Value)
    requires Recorded(bb, counts, b) && Uses(bb, b.first, v) && !v.Const?
    ensures v in b.args
  {
    assert Tested(bb, counts, b.first, b.last + 1, v);
  }

  lemma RawGuardIsUndefined(s: Setting, j: nat, v: Value, last: nat)
    requires (forall u | u in s.env :: !u.Local?) && j < |s.regions| && v.Local? && v in s.regions[j].guard
    requires last < |s.code| && Position(s.regions, last) == j
    ensures !Rewrite(s, last + 1).Running?
  {
    if Rewrite(s, last).Running? {
      NoResultIsKept(s, last);
      assert !Defined(s.code, s.regions[j], Rewrite(s, last).env);
    }
  }

  /**
   When a block is lowered before one that begins with its result, the guard of the
   later one reads a call result that only the slow path defines: on no input does
   the rewritten code run to its end.
   */
  lemma OutOfOrderNeverFinishes(s: Setting)
    requires Prepared(s) && !ConsumersFirst(s.bb, s.order)
    ensures |s.code| == |s.bb| && !Rewrite(s, |s.bb|).Running?
  {
    var j: nat :| j < |s.order| && !LoweredInTime(s.bb, s.order, j);
    var i :| 0 <= i < j && Uses(s.bb, s.order[j].first, Local(s.order[i].last));
    EarlyBlockStops(s, i, j);
  }

  lemma EarlyBlockStops(s: Setting, i: nat, j: nat)
    requires Prepared(s) && i < j < |s.order| && Uses(s.bb, s.order[j].first, Local(s.order[i].last))
    ensures |s.code| == |s.bb| && !Rewrite(s, |s.bb|).Running?
  {
    SettingIsListed(s);
    assert Recorded(s.bb, s.counts, s.order[j]) by {
      Settle(s);
      assert s.order[j] in s.order;
    }
    FirstOperandIsTested(s.bb, s.counts, s.order[j], Local(s.order[i].last));
    RawResultIsTested(s, i, j);
    RawGuardStops(s, j, Local(s.order[i].last));
  }

  lemma RawGuardStops(s: Setting, j: nat, v: Value)
    requires Listed(s) && (forall u | u in s.env :: !u.Local?)
    requires j < |s.order| && v.Local? && v in s.regions[j].guard
    ensures !Rewrite(s, |s.bb|).Running?
  {
    var last := s.order[j].last;
    OwnPosition(s, j, last);
    RawGuardIsUndefined(s, j, v, last);
    StoppedStays(s, last + 1, |s.bb|);
  }
}
