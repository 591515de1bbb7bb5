/** Expression trees through the whole arithmetic pass: value by helpers, and value of the rewritten code. */
module RewrittenTrees {
  import opened Tagged
  import opened Ast
  import opened ArithmeticBlocks
  import opened ExpressionTrees
  import opened FastPath
  import opened SelectedBlocks
  import opened Lowering
  import opened Rewriting
  import opened LoweringOrders
  import opened RewrittenRuns

  /* ---- The value of a tree ---- */

  /** Both operands, then the helper. */
  function ValueOf(call: Overload, t: Tree, base: nat, env: Env): Checked {
    match t
    case Variable => Fine(WordFor(Loaded(base), env))
    case Literal(w) => Fine(w)
    case Node(op, l, r) =>
      OperatorOn(call, op, ValueOf(call, l, base, env), ValueOf(call, r, base + Size(l), env))
  }

  function OperatorOn(call: Overload, op: ArithOp, l: Checked, r: Checked): Checked {
    if l.Trapped? || r.Trapped? then Trapped else Helper(call, op, l.w, r.w)
  }

  /** Code from `base` on has run: only its own results are new. */
  predicate OnlyLater(env: Env, env': Env, base: nat) {
    && (forall v | v in env && !(v.Local? && base <= v.index) :: v in env' && env'[v] == env[v])
    && (forall v | v in env' && !v.Local? :: v in env)
  }

  /** The run at the end of a tree's code, by the value of the tree. */
  ghost predicate Leaves(chain: Run, value: Checked, root: Value, env: Env, base: nat) {
    match value
    case Trapped => chain == Aborted
    case Fine(w) =>
      && chain.Running? && WordFor(root, chain.env) == w && (root.Local? ==> root in chain.env)
      && OnlyLater(env, chain.env, base)
  }

  lemma OnlyLaterKeepsLoads(call: Overload, t: Tree, base: nat, env: Env, env': Env, from: nat)
    requires OnlyLater(env, env', from)
    ensures ValueOf(call, t, base, env') == ValueOf(call, t, base, env)
  {
    match t
    case Node(_, l, r) =>
      OnlyLaterKeepsLoads(call, l, base, env, env', from);
      OnlyLaterKeepsLoads(call, r, base + Size(l), env, env', from);
    case _ =>
  }

  /** The runs after each number of instructions. */
  ghost predicate Follows(call: Overload, bb: BasicBlock, trace: seq<Run>) {
    |trace| == |bb| + 1 && forall k: nat | k < |bb| :: StepsAt(call, bb, trace, k)
  }

  predicate StepsAt(call: Overload, bb: BasicBlock, trace: seq<Run>, k: nat)
    requires k < |bb| < |trace|
  {
    trace[k + 1] == if trace[k].Running? then ChainStep(call, bb[k], k, trace[k].env) else trace[k]
  }

  lemma {:induction false} AbortedTraceStays(call: Overload, bb: BasicBlock, trace: seq<Run>, k: nat, n: nat)
    requires Follows(call, bb, trace) && k <= n <= |bb| && trace[k] == Aborted
    ensures trace[n] == Aborted
    decreases n
  {
    if k < n {
      AbortedTraceStays(call, bb, trace, k, n - 1);
      assert StepsAt(call, bb, trace, n - 1);
    }
  }

  /** The code of a tree computes its value. */
  lemma {:induction false} CodeComputesTree(
    call: Overload, bb: BasicBlock, trace: seq<Run>, t: Tree, base: nat, env: Env)
    requires Placed(bb, t, base) && Follows(call, bb, trace) && trace[base] == Running(env)
    ensures Leaves(trace[base + Size(t)], ValueOf(call, t, base, env), Root(t, base), env, base)
    decreases t
  {
    match t
    case Variable => assert StepsAt(call, bb, trace, base);
    case Literal(_) =>
    case Node(_, l, r) =>
      var m := base + Size(l);
      CodeComputesTree(call, bb, trace, l, base, env);
      if trace[m].Running? {
        OnlyLaterKeepsLoads(call, r, m, env, trace[m].env, base);
        CodeComputesTree(call, bb, trace, r, m, trace[m].env);
      } else {
        AbortedTraceStays(call, bb, trace, m, m + Size(r));
      }
      NodeIsComputed(call, bb, trace, t, base, env, m);
  }

  lemma NodeIsComputed(
    call: Overload, bb: BasicBlock, trace: seq<Run>, t: Tree, base: nat, env: Env, m: nat)
    requires t.Node? && Placed(bb, t, base) && Follows(call, bb, trace) && m == base + Size(t.left)
    requires Leaves(trace[m], ValueOf(call, t.left, base, env), Root(t.left, base), env, base)
    requires trace[m].Running? ==> Leaves(trace[m + Size(t.right)], ValueOf(call, t.right, m, env), Root(t.right, m),
                                          trace[m].env, m)
    requires !trace[m].Running? ==> trace[m + Size(t.right)] == Aborted
    ensures Leaves(trace[base + Size(t)], ValueOf(call, t, base, env), Root(t, base), env, base)
  {
    var k := m + Size(t.right);
    assert StepsAt(call, bb, trace, k);
    CallComputesNode(call, t.op, k, Root(t.left, base), Root(t.right, m), base, m, env, trace[m], trace[k],
                     trace[k + 1], ValueOf(call, t.left, base, env), ValueOf(call, t.right, m, env));
  }

  lemma CallComputesNode(
    call: Overload, op: ArithOp, k: nat, x: Value, y: Value, base: nat, m: nat, env: Env, left: Run, right: Run,
    chain: Run, lv: Checked, rv: Checked)
    requires base <= m <= k && (x.Local? ==> base <= x.index < m)
    requires Leaves(left, lv, x, env, base) && (left.Running? ==> Leaves(right, rv, y, left.env, m))
    requires !left.Running? ==> right == Aborted
    requires chain == if right.Running? then ChainStep(call, Arith(op, x, y), k, right.env) else right
    ensures Leaves(chain, OperatorOn(call, op, lv, rv), Local(k), env, base)
  {
    if left.Running? && right.Running? {
      assert WordFor(x, right.env) == WordFor(x, left.env);
    }
  }

  /* ---- The whole pass ---- */

  predicate IntegerLiterals(t: Tree) {
    match t
    case Variable => true
    case Literal(w) => IsInteger(w)
    case Node(_, l, r) => IntegerLiterals(l) && IntegerLiterals(r)
  }

  lemma {:induction false} LiteralsAreIntegers(bb: BasicBlock, t: Tree, base: nat, k: nat, w: Word)
    requires Placed(bb, t, base) && IntegerLiterals(t) && base <= k < base + Size(t) && Uses(bb, k, Const(w))
    ensures IsInteger(w)
    decreases t
  {
    match t
    case Variable =>
    case Literal(_) =>
    case Node(_, l, r) =>
      var m := base + Size(l);
      if k < m {
        LiteralsAreIntegers(bb, l, base, k, w);
      } else if k < m + Size(r) {
        LiteralsAreIntegers(bb, r, m, k, w);
      }
  }

  /** Words for the loads of a tree. */
  ghost predicate Loads(t: Tree, env: Env) {
    ValidEnv(env) && (forall v | v in env :: v.Loaded?) && forall k: nat | k < Size(t) :: Loaded(k) in env
  }

  /** The code of a tree through both loops of the pass, and an input. */
  ghost predicate TreeSetting(t: Tree, s: Setting) {
    && TreeCounts(t, s.counts) && s.bb == TreeBlock(t) && t.Node? && IntegerLiterals(t)
    && LoweringOrder(s.bb, s.counts, s.order) && Rewritten(s.bb, s.order, |s.order|, s.code, s.regions)
    && Loads(t, s.env) && ReturnsValues(s.call)
  }

  lemma {:induction false} LoadsAreBefore(bb: BasicBlock, t: Tree, base: nat, k: nat, i: nat)
    requires Placed(bb, t, base) && base <= k < base + Size(t) && Uses(bb, k, Loaded(i))
    ensures base <= i < k
    decreases t
  {
    match t
    case Variable =>
    case Literal(_) =>
    case Node(_, l, r) =>
      var m := base + Size(l);
      if k < m {
        LoadsAreBefore(bb, l, base, k, i);
      } else if k < m + Size(r) {
        LoadsAreBefore(bb, r, m, k, i);
      }
  }

  lemma {:induction false} ResultsAreCalls(bb: BasicBlock, t: Tree, base: nat, k: nat, i: nat)
    requires Placed(bb, t, base) && base <= k < base + Size(t) && Uses(bb, k, Local(i))
    ensures IsArith(bb, i)
    decreases t
  {
    match t
    case Variable =>
    case Literal(_) =>
    case Node(_, l, r) =>
      var m := base + Size(l);
      if k < m {
        ResultsAreCalls(bb, l, base, k, i);
      } else if k < m + Size(r) {
        ResultsAreCalls(bb, r, m, k, i);
      }
  }

  lemma TreeIsGiven(t: Tree, s: Setting)
    requires TreeSetting(t, s)
    ensures Given(s.bb, s.env)
  {
    TreeIsPlaced(t);
    forall k: nat, v | Uses(s.bb, k, v) && !v.Const?
      ensures if v.Local? then IsArith(s.bb, v.index) else v in s.env
    {
      TreeOperands(s.bb, t, 0, k);
      if v.Local? {
        ResultsAreCalls(s.bb, t, 0, k, v.index);
      } else {
        LoadsAreBefore(s.bb, t, 0, k, v.k);
      }
    }
  }

  lemma TreeDoesNotStraddle(t: Tree)
    ensures NoStraddle(TreeBlock(t))
  {
    TreeBlockIsStackOrdered(t);
    forall i: nat, e: nat, q: nat ensures !Straddles(TreeBlock(t), i, e, q) {
      StackOrderedDoesNotStraddle(TreeBlock(t), i, e, q);
    }
  }

  lemma TreeIsPrepared(t: Tree, s: Setting)
    requires TreeSetting(t, s)
    ensures Prepared(s)
  {
    TreeIsPlaced(t);
    TreeIsUsedOnce(t, s.counts);
    TreeHasNoJoins(t);
    TreeDoesNotStraddle(t);
    TreeIsGiven(t, s);
    forall b | b in s.order ensures IntegerConstants(s.bb, b) {
      forall k: nat, w | b.first <= k <= b.last && Uses(s.bb, k, Const(w)) ensures IsInteger(w) {
        LiteralsAreIntegers(s.bb, t, 0, k, w);
      }
    }
  }

  /** The root is the last call of the last block. */
  lemma RootIsLast(t: Tree, s: Setting) returns (b: Selected)
    requires TreeSetting(t, s)
    ensures b in s.order && Root(t, 0) == Local(b.last)
  {
    TreeIsPlaced(t);
    TreeIsUsedOnce(t, s.counts);
    b := CallIsRecorded(s.bb, s.counts, ScanTo(s.bb, s.counts, |s.bb|), Size(t) - 1);
    assert IsArith(s.bb, b.last);
  }

  /** The rewritten code ends with the value at the root's join. */
  ghost predicate YieldsValue(t: Tree, s: Setting) {
    && |s.code| == |s.bb| && Rewrite(s, |s.bb|).Running?
    && Root(t, 0).Local? && Join(Root(t, 0).index) in Rewrite(s, |s.bb|).env
    && ValueOf(s.call, t, 0, s.env) == Fine(Rewrite(s, |s.bb|).env[Join(Root(t, 0).index)])
  }

  lemma ChainFollows(s: Setting) returns (trace: seq<Run>)
    ensures Follows(s.call, s.bb, trace) && trace[0] == Running(s.env) && trace[|s.bb|] == Chain(s, |s.bb|)
  {
    trace := seq(|s.bb| + 1, k requires 0 <= k <= |s.bb| => Chain(s, k));
    forall k: nat | k < |s.bb| ensures StepsAt(s.call, s.bb, trace, k) {
      ChainUnfolds(s, k, Chain(s, k), Chain(s, k + 1));
    }
  }

  lemma ChainEndsWithValue(t: Tree, s: Setting)
    requires TreeSetting(t, s)
    ensures Leaves(Chain(s, |s.bb|), ValueOf(s.call, t, 0, s.env), Root(t, 0), s.env, 0)
  {
    TreeIsPlaced(t);
    var trace := ChainFollows(s);
    CodeComputesTree(s.call, s.bb, trace, t, 0, s.env);
    assert StepsAt(s.call, s.bb, trace, Size(t));
  }

  /**
   A narrow tree whose value the helpers compute: the rewritten code yields that
   value exactly when no block was lowered before one that begins with its result.
   In any other order it does not even run to its end.
   */
  lemma NarrowTreeIsRightExactlyWhen(t: Tree, s: Setting)
    requires TreeSetting(t, s) && Narrow(t) && ValueOf(s.call, t, 0, s.env).Fine?
    ensures YieldsValue(t, s) <==> ConsumersFirst(s.bb, s.order)
  {
    TreeIsPrepared(t, s);
    if ConsumersFirst(s.bb, s.order) {
      TreeGuardsFollowExactlyWhen(t, s.counts, s.order);
      TestingIsSafe(s);
      ChainEndsWithValue(t, s);
      var b := RootIsLast(t, s);
      HelpersResultIsKept(s);
    } else {
      OutOfOrderNeverFinishes(s);
    }
  }

  /* ---- (x + y) + z ---- */

  const THREE_VARIABLES := Node(Add, Node(Add, Variable, Variable), Variable)

  const THREE_COUNTS: Counts := map[Local(2) := 1, Local(4) := 1]

  const FIRST_SUM := Selected(2, 2, {Loaded(0), Loaded(1)})

  const SECOND_SUM := Selected(4, 4, {Local(2), Loaded(3)})

  lemma ThreeVariablesCode()
    ensures TreeBlock(THREE_VARIABLES) == [
              Other([]), Other([]), Arith(Add, Loaded(0), Loaded(1)), Other([]), Arith(Add, Local(2), Loaded(3)),
              Other([Local(4)])]
    ensures TreeCounts(THREE_VARIABLES, THREE_COUNTS) && Narrow(THREE_VARIABLES) && !Solid(THREE_VARIABLES)
  {
    var sum := Node(Add, Variable, Variable);
    assert EmitTree(sum, 0) == [Other([]), Other([]), Arith(Add, Loaded(0), Loaded(1))];
    assert Size(sum) == 3;
    assert EmitTree(THREE_VARIABLES, 0) == EmitTree(sum, 0) + [Other([])] + [Arith(Add, Local(2), Loaded(3))];
  }

  /** `(x + y) + z` is lowered as two blocks, in either order. */
  lemma ThreeVariablesBlocks()
    ensures LoweringOrder(TreeBlock(THREE_VARIABLES), THREE_COUNTS, [FIRST_SUM, SECOND_SUM])
    ensures LoweringOrder(TreeBlock(THREE_VARIABLES), THREE_COUNTS, [SECOND_SUM, FIRST_SUM])
  {
    var bb, counts := TreeBlock(THREE_VARIABLES), THREE_COUNTS;
    ThreeVariablesCode();
    assert ScanTo(bb, counts, 0) == Scan(None, {}, counts, []);
    assert ScanTo(bb, counts, 1) == Scan(None, {}, counts, []);
    assert ScanTo(bb, counts, 2) == Scan(None, {}, counts, []);
    FirstBlock(bb, ScanTo(bb, counts, 2));
    assert ScanTo(bb, counts, 4) == ScanTo(bb, counts, 3);
    SecondBlock(bb, ScanTo(bb, counts, 4));
    assert ScanTo(bb, counts, 6).blocks == [FIRST_SUM, SECOND_SUM];
  }

  lemma FirstBlock(bb: BasicBlock, s: Scan)
    requires |bb| == 6 && bb[2] == Arith(Add, Loaded(0), Loaded(1)) && bb[3].Other?
    requires s == Scan(None, {}, THREE_COUNTS, [])
    ensures ScanStep(bb, s, 2) == Scan(None, {}, THREE_COUNTS, [FIRST_SUM])
  {
    assert LeftOver(bb, Local(2), 2, 1);
    assert TakeOperands(s, Loaded(0), Loaded(1)) == Taken({Loaded(0), Loaded(1)}, THREE_COUNTS, false);
  }

  lemma SecondBlock(bb: BasicBlock, s: Scan)
    requires |bb| == 6 && bb[4] == Arith(Add, Local(2), Loaded(3)) && bb[5].Other?
    requires s == Scan(None, {}, THREE_COUNTS, [FIRST_SUM])
    ensures ScanStep(bb, s, 4) == Scan(None, {}, THREE_COUNTS, [FIRST_SUM, SECOND_SUM])
  {
    assert LeftOver(bb, Local(4), 4, 1);
    assert TakeOperands(s, Local(2), Loaded(3)) == Taken({Local(2), Loaded(3)}, THREE_COUNTS, false);
  }

  /**
   Lowering the first sum first leaves the second one's guard on a value that is not
   defined there; lowering it last is right. On any three words with a value.
   */
  lemma SumOfThreeDependsOnOrder(s: Setting)
    requires TreeSetting(THREE_VARIABLES, s) && s.counts == THREE_COUNTS
    requires ValueOf(s.call, THREE_VARIABLES, 0, s.env).Fine?
    ensures s.order == [FIRST_SUM, SECOND_SUM] ==> !YieldsValue(THREE_VARIABLES, s)
    ensures s.order == [SECOND_SUM, FIRST_SUM] ==> YieldsValue(THREE_VARIABLES, s)
  {
    ThreeVariablesCode();
    NarrowTreeIsRightExactlyWhen(THREE_VARIABLES, s);
    assert Uses(s.bb, SECOND_SUM.first, Local(FIRST_SUM.last));
    assert !Uses(s.bb, FIRST_SUM.first, Local(SECOND_SUM.last));
    if s.order == [FIRST_SUM, SECOND_SUM] {
      assert Uses(s.bb, s.order[1].first, Local(s.order[0].last)) && !LoweredInTime(s.bb, s.order, 1);
    } else if s.order == [SECOND_SUM, FIRST_SUM] {
      assert LoweredInTime(s.bb, s.order, 0) && LoweredInTime(s.bb, s.order, 1);
    }
  }

  /* ---- (x + y) + (z + w) ---- */

  /** Every overloaded operator returns the same object. */
  function SameObject(op: ArithOp, l: Word, r: Word): Checked {
    Fine(16)
  }

  /** `x` is an object, the others are the integer one. */
  const ONE_OBJECT: Env := map[Loaded(0) := 8, Loaded(1) := 9, Loaded(3) := 9, Loaded(4) := 9]

  lemma QuietInstruction(s: Setting, k: nat)
    requires Prepared(s) && Listed(s) && k < |s.bb| && !IsArith(s.bb, k)
    ensures Rewrite(s, k + 1) == Rewrite(s, k)
  {
    Settle(s);
    forall b | b in s.order ensures !(b.first <= k <= b.last) {
      assert IsRun(s.bb, b);
    }
    NothingBetween(s, k);
  }

  /** Where there are no calls, nothing is computed. */
  lemma {:induction false} QuietStretch(s: Setting, k: nat, n: nat)
    requires Prepared(s) && Listed(s) && k <= n <= |s.bb| && forall x: nat | k <= x < n :: !IsArith(s.bb, x)
    ensures Rewrite(s, n) == Rewrite(s, k)
    decreases n
  {
    if k < n {
      QuietStretch(s, k, n - 1);
      QuietInstruction(s, n - 1);
    }
  }

  lemma LoadsStay(lasts: set<nat>, vs: set<Value>)
    requires forall v | v in vs :: v.Loaded?
    ensures RedirectAll(lasts, vs) == vs
  {
    forall v | v in vs ensures v in RedirectAll(lasts, vs) {
      assert Redirect(lasts, v) == v;
    }
  }

  const SUM_BLOCK: Block := [Call(Add, Outside(Loaded(0)), Outside(Loaded(1)))]

  const TOTAL_BLOCK: Block :=
    [Call(Add, Outside(Loaded(3)), Outside(Loaded(4))), Call(Add, Outside(Join(2)), Computed(0))]

  lemma SumIsSlow()
    ensures WellFormed(SUM_BLOCK, ONE_OBJECT) && !Guard({Loaded(0), Loaded(1)}, ONE_OBJECT)
    ensures SlowResult(SameObject, SUM_BLOCK, ONE_OBJECT) == Fine(16)
  {
    assert Slow(SameObject, SUM_BLOCK, ONE_OBJECT, 0) == Words([]);
    assert Helper(SameObject, Add, 8, 9) == Fine(16);
    assert Slow(SameObject, SUM_BLOCK, ONE_OBJECT, 1) == Words([16]);
  }

  lemma TotalIsFast(env: Env)
    requires env == ONE_OBJECT[Join(2) := 16]
    ensures WellFormed(TOTAL_BLOCK, env) && Guard({Loaded(3), Loaded(4)}, env)
    ensures FastResult(TOTAL_BLOCK, env) == Fine(Encode(4))
  {
    assert Fast(TOTAL_BLOCK, env, 0) == Ints([]);
    assert Fast(TOTAL_BLOCK, env, 1) == Ints([2]);
    assert Fast(TOTAL_BLOCK, env, 2) == Ints([2, 4]);
  }

  /** The region of a block whose guard tests loads only. */
  lemma RegionOfLoads(s: Setting, i: nat, b: Selected)
    requires Prepared(s) && i < |s.order| && s.order[i] == b && forall v | v in b.args :: v.Loaded?
    ensures i < |s.regions| && s.regions[i].block == b && IsRun(s.code, b)
    ensures s.regions[i].guard == b.args && Computes(s.regions[i].fast, s.regions[i].result, BlockOf(s.code, b))
  {
    Settle(s);
    assert b in s.order && Lowered(s.code, s.order, i, |s.order|, s.regions[i]);
    LoadsStay(Lasts(s.order[i..|s.order|]), b.args);
  }

  lemma SumShape(bb: BasicBlock, lasts: set<nat>, b: Selected)
    requires bb == TreeBlock(FOUR_VARIABLES) && b.first == b.last == 2 && IsRun(bb, b)
    requires IsRun(RedirectCode(lasts, bb), b)
    ensures BlockOf(RedirectCode(lasts, bb), b) == SUM_BLOCK
  {
    FourVariablesCode();
    CallRedirects(bb, lasts, b, 0);
  }

  lemma TotalShape(bb: BasicBlock, lasts: set<nat>, b: Selected)
    requires bb == TreeBlock(FOUR_VARIABLES) && b.first == 5 && b.last == 6 && IsRun(bb, b)
    requires IsRun(RedirectCode(lasts, bb), b) && 2 in lasts && 5 !in lasts
    ensures BlockOf(RedirectCode(lasts, bb), b) == TOTAL_BLOCK
  {
    FourVariablesCode();
    CallRedirects(bb, lasts, b, 0);
    CallRedirects(bb, lasts, b, 1);
  }

  /** The first sum goes through the overloaded operator. */
  lemma FirstSumIsObject(s: Setting, i: nat, b: Selected)
    requires Prepared(s) && i < |s.order| && s.order[i] == b == Selected(2, 2, {Loaded(0), Loaded(1)})
    requires s.bb == TreeBlock(FOUR_VARIABLES) && s.env == ONE_OBJECT && s.call == SameObject
    ensures i < |s.regions| && RunRegion(s.call, s.code, s.regions[i], s.env) == Running(s.env[Join(2) := 16])
  {
    Settle(s);
    RegionOfLoads(s, i, b);
    SumShape(s.bb, Lasts(s.order), b);
    SumIsSlow();
  }

  /** The guard of the second block does not look at it. */
  lemma TotalIsNumber(s: Setting, j: nat, b: Selected, env: Env)
    requires Prepared(s) && j < |s.order| && s.order[j] == b == Selected(5, 6, {Loaded(3), Loaded(4)})
    requires s.bb == TreeBlock(FOUR_VARIABLES) && 2 in Lasts(s.order) && env == ONE_OBJECT[Join(2) := 16]
    ensures j < |s.regions| && RunRegion(s.call, s.code, s.regions[j], env) == Running(env[Join(6) := Encode(4)])
  {
    Settle(s);
    RegionOfLoads(s, j, b);
    FourVariablesCode();
    assert 5 !in Lasts(s.order) by {
      assert Uses(s.bb, 6, Local(5));
      OwnResultStays(s, b, 6, 5);
    }
    TotalShape(s.bb, Lasts(s.order), b);
    TotalIsFast(env);
  }

  lemma RegionStep(s: Setting, i: nat, env: Env, env': Env)
    requires Listed(s) && i < |s.order| && Rewrite(s, s.order[i].first) == Running(env)
    requires RunRegion(s.call, s.code, s.regions[i], env) == Running(env')
    ensures Rewrite(s, s.order[i].last + 1) == Running(env')
  {
    NothingEnds(s, i, s.order[i].last);
    OwnPosition(s, i, s.order[i].last);
  }

  ghost predicate CallsOfFour(bb: BasicBlock) {
    |bb| == 8 && forall k: nat | k < 2 || 3 <= k < 5 || 7 <= k < 8 :: !IsArith(bb, k)
  }

  lemma FirstSumRuns(s: Setting, i: nat, env: Env)
    requires Prepared(s) && Listed(s) && CallsOfFour(s.bb) && i < |s.order|
    requires s.order[i].first == s.order[i].last == 2
    requires RunRegion(s.call, s.code, s.regions[i], s.env) == Running(env)
    ensures Rewrite(s, 3) == Running(env)
  {
    QuietStretch(s, 0, 2);
    RegionStep(s, i, s.env, env);
  }

  lemma TotalRuns(s: Setting, j: nat, env: Env, env': Env)
    requires Prepared(s) && Listed(s) && CallsOfFour(s.bb) && j < |s.order|
    requires s.order[j].first == 5 && s.order[j].last == 6 && Rewrite(s, 3) == Running(env)
    requires RunRegion(s.call, s.code, s.regions[j], env) == Running(env')
    ensures Rewrite(s, 8) == Running(env')
  {
    QuietStretch(s, 3, 5);
    RegionStep(s, j, env, env');
    QuietStretch(s, 7, 8);
  }

  lemma FourVariablesValue()
    ensures ValueOf(SameObject, FOUR_VARIABLES, 0, ONE_OBJECT) == Fine(16)
  {
    var sum := Node(Add, Variable, Variable);
    assert ValueOf(SameObject, sum, 0, ONE_OBJECT) == Fine(16);
    assert Size(sum) == 3 && ValueOf(SameObject, sum, 3, ONE_OBJECT).Fine?;
  }

  /** In either order: where the helpers return an object, the rewritten code computes with its address. */
  lemma SumOfFourGoesWrong(s: Setting)
    requires TreeSetting(FOUR_VARIABLES, s) && s.counts == FOUR_COUNTS
    requires s.call == SameObject && s.env == ONE_OBJECT
    ensures ValueOf(s.call, FOUR_VARIABLES, 0, s.env) == Fine(16)
    ensures |s.code| == |s.bb| && Rewrite(s, |s.bb|).Running?
    ensures Join(6) in Rewrite(s, |s.bb|).env && Rewrite(s, |s.bb|).env[Join(6)] == Encode(4)
  {
    TreeIsPrepared(FOUR_VARIABLES, s);
    TreeIsUsedOnce(FOUR_VARIABLES, FOUR_COUNTS);
    FourVariablesCode();
    FourVariablesValue();
    var a := FirstBlockOfFour();
    var b := FourVariablesAreNotCovered();
    var i :| 0 <= i < |s.order| && s.order[i] == a;
    var j :| 0 <= j < |s.order| && s.order[j] == b;
    SumOfFourRuns(s, i, j, a, b, s.env[Join(2) := 16]);
  }

  lemma SumOfFourRuns(s: Setting, i: nat, j: nat, a: Selected, b: Selected, env: Env)
    requires Prepared(s) && s.bb == TreeBlock(FOUR_VARIABLES) && s.env == ONE_OBJECT && s.call == SameObject
    requires i < |s.order| && s.order[i] == a == Selected(2, 2, {Loaded(0), Loaded(1)})
    requires j < |s.order| && s.order[j] == b == Selected(5, 6, {Loaded(3), Loaded(4)})
    requires env == s.env[Join(2) := 16]
    ensures |s.code| == |s.bb| == 8 && Rewrite(s, 8) == Running(env[Join(6) := Encode(4)])
  {
    SettingIsListed(s);
    FourVariablesCode();
    FirstSumIsObject(s, i, a);
    FirstSumRuns(s, i, env);
    assert a in s.order && 2 in Lasts(s.order);
    var env': Env := env[Join(6) := Encode(4)];
    TotalIsNumber(s, j, b, env);
    TotalRuns(s, j, env, env');
  }

  lemma FirstBlockOfFour() returns (a: Selected)
    ensures var bb := TreeBlock(FOUR_VARIABLES);
            var s := ScanTo(bb, FOUR_COUNTS, |bb|);
            s.Scan? && a in s.blocks && a == Selected(2, 2, {Loaded(0), Loaded(1)})
  {
    var bb := TreeBlock(FOUR_VARIABLES);
    FourVariablesCode();
    TreeIsUsedOnce(FOUR_VARIABLES, FOUR_COUNTS);
    assert IsArith(bb, 2);
    a := CallIsRecorded(bb, FOUR_COUNTS, ScanTo(bb, FOUR_COUNTS, |bb|), 2);
    LoneBlock(bb, a);
  }

  lemma LoneBlock(bb: BasicBlock, a: Selected)
    requires |bb| == 8 && bb[1].Other? && bb[2] == Arith(Add, Loaded(0), Loaded(1)) && bb[3].Other?
    requires Recorded(bb, FOUR_COUNTS, a) && a.first <= 2 <= a.last
    ensures a == Selected(2, 2, {Loaded(0), Loaded(1)})
  {
    assert !IsArith(bb, 1) && !IsArith(bb, 3);
    LastOfRunEnds(bb, 2);
    assert a.first == 2 && a.last == 2;
    assert Uses(bb, 2, Loaded(0)) && Uses(bb, 2, Loaded(1));
    forall v ensures v in a.args <==> v == Loaded(0) || v == Loaded(1) {
      assert v in a.args <==> Tested(bb, FOUR_COUNTS, 2, 3, v);
    }
  }
}
