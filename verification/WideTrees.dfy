/**
 Exactly which expression trees, lowered in which orders, keep step with the helpers
 on all inputs: an operand that no guard tests does harm only if some input makes it
 an object.
 */
module WideTrees {
  import opened Tagged
  import opened Ast
  import opened ArithmeticBlocks
  import opened ExpressionTrees
  import opened FastPath
  import opened SelectedBlocks
  import opened Lowering
  import opened Rewriting
  import opened LoweringOrders
  import opened RewrittenRuns
  import opened RewrittenTrees

  /** The leftmost leaf is a variable: with an object there, every operator above it is overloaded. */
  predicate HeadIsVariable(t: Tree) {
    match t
    case Variable => true
    case Literal(_) => false
    case Node(_, l, _) => HeadIsVariable(l)
  }

  /** No operator combines two operators of which the right one loads a variable and the left one begins with one. */
  predicate Tame(t: Tree) {
    match t
    case Node(_, l, r) =>
      Tame(l) && Tame(r) && !(l.Node? && r.Node? && HasVariable(r) && HeadIsVariable(l))
    case _ => true
  }

  /* ---- Operands that are always integers ---- */

  /** The chain of left operands that a value begins with ends in an integer constant. */
  predicate Sure(bb: BasicBlock, v: Value)
    decreases if v.Local? then v.index + 1 else 0
  {
    match v
    case Const(w) => IsInteger(w)
    case Local(j) =>
      j < |bb| && bb[j].Arith? && (bb[j].l.Local? ==> bb[j].l.index < j) && Sure(bb, bb[j].l)
    case _ => false
  }

  /** An integer on the left gives an integer or fails. */
  lemma {:induction false} SureIsInteger(s: Setting, k: nat, v: Value, c: Env)
    requires k <= |s.bb| && Chain(s, k) == Running(c)
    requires Sure(s.bb, v) && (v.Local? ==> v.index < k)
    ensures IsInteger(WordFor(v, c))
    decreases k
  {
    if v.Local? {
      var now := Chain(s, k - 1);
      ChainUnfolds(s, k - 1, now, Chain(s, k));
      if v.index < k - 1 {
        SureIsInteger(s, k - 1, v, now.env);
        OtherStays(s.call, s.bb[k - 1], k - 1, now.env, c, v);
      } else {
        SureIsInteger(s, k - 1, s.bb[k - 1].l, now.env);
        ResultIsInteger(s.call, s.bb[k - 1], k - 1, now.env, c);
      }
    }
  }

  lemma OtherStays(call: Overload, i: Inst, k: nat, c: Env, c': Env, v: Value)
    requires ChainStep(call, i, k, c) == Running(c') && v != Local(k)
    ensures WordFor(v, c') == WordFor(v, c)
  {
  }

  lemma ResultIsInteger(call: Overload, i: Inst, k: nat, c: Env, c': Env)
    requires i.Arith? && ChainStep(call, i, k, c) == Running(c') && IsInteger(WordFor(i.l, c))
    ensures Local(k) in c' && IsInteger(c'[Local(k)]) && c' == c[Local(k) := c'[Local(k)]]
  {
    IntegerOnTheLeft(call, i.op, WordFor(i.l, c), WordFor(i.r, c));
  }

  lemma IntegerOnTheLeft(call: Overload, op: ArithOp, l: Word, r: Word)
    requires IsInteger(l) && Helper(call, op, l, r).Fine?
    ensures IsInteger(Helper(call, op, l, r).w)
  {
    HelperTags(op, l, r);
  }

  lemma {:induction false} LiteralHeadIsSure(bb: BasicBlock, t: Tree, base: nat)
    requires Placed(bb, t, base) && IntegerLiterals(t) && !HeadIsVariable(t)
    ensures Sure(bb, Root(t, base))
    decreases t
  {
    match t
    case Node(_, l, _) => LiteralHeadIsSure(bb, l, base);
    case _ =>
  }

  /** An operand in a tame tree comes without a break, or directly after a load, or is always an integer. */
  lemma {:induction false} TameOperand(bb: BasicBlock, t: Tree, base: nat, k: nat, i: nat)
    requires Placed(bb, t, base) && Tame(t) && IntegerLiterals(t)
    requires base <= k < base + Size(t) && Uses(bb, k, Local(i))
    ensures Reached(bb, i, k) || Sure(bb, Local(i))
    decreases t
  {
    match t
    case Variable =>
    case Literal(_) =>
    case Node(_, l, r) =>
      var m := base + Size(l);
      if k < m {
        TameOperand(bb, l, base, k, i);
      } else if k < m + Size(r) {
        TameOperand(bb, r, m, k, i);
      } else if i < m && l.Node? && r.Node? && HasVariable(r) {
        LiteralHeadIsSure(bb, l, base);
      } else if IsArith(bb, k - 1) {
        forall j: nat | i <= j < k ensures IsArith(bb, j) && UsedByCall(bb, j, k) {
          if m <= j && i < m {
            LiteralsAreCalls(bb, r, m, j);
          }
          if j == i {
            assert Uses(bb, k, Local(j));
          } else {
            TreeUsesAll(bb, t, base, j);
          }
        }
      }
  }

  lemma ForeignIsNotReached(bb: BasicBlock, counts: Counts, b: Selected, k: nat, i: nat)
    requires Recorded(bb, counts, b) && b.first < k <= b.last && i < b.first && Uses(bb, k, Local(i))
    ensures !Reached(bb, i, k)
  {
    assert IsArith(bb, k - 1);
    var before: nat := b.first - 1;
    if Reached(bb, i, k) {
      ReachedDoesNotEnd(bb, i, before, k);
    }
  }

  /** In a tame tree the results that a block does not test are integers, on every input. */
  lemma TameIsSafe(t: Tree, s: Setting)
    requires TreeSetting(t, s) && Tame(t) && ConsumersFirst(s.bb, s.order)
    ensures Prepared(s) && SafeBefore(s, |s.bb|)
  {
    TreeIsPrepared(t, s);
    TreeIsPlaced(t);
    Settle(s);
    forall i: nat | i < |s.order| ensures BlockIsSafe(s, i) {
      assert LoweredInTime(s.bb, s.order, i) && s.order[i] in s.order;
      forall v | ForeignResult(s.bb, s.counts, s.order[i], v)
        ensures s.order[i].first <= |s.bb| && IntegerAt(Chain(s, s.order[i].first), v)
      {
        ForeignIsSure(t, s, s.order[i], v);
      }
    }
  }

  lemma ForeignIsSure(t: Tree, s: Setting, b: Selected, v: Value)
    requires TreeSetting(t, s) && Tame(t) && UsedOnce(s.bb, s.counts) && Placed(s.bb, t, 0) && |s.bb| == Size(t) + 1
    requires IsArith(s.bb, b.last) && Recorded(s.bb, s.counts, b) && ForeignResult(s.bb, s.counts, b, v)
    ensures b.first <= |s.bb| && IntegerAt(Chain(s, b.first), v)
  {
    var k: nat :| b.first < k <= b.last && Uses(s.bb, k, v);
    assert v.Local? && v.index < b.first;
    assert IsArith(s.bb, k) && !IsArith(s.bb, Size(t));
    TameOperand(s.bb, t, 0, k, v.index);
    ForeignIsNotReached(s.bb, s.counts, b, k, v.index);
    if Chain(s, b.first).Running? {
      SureIsInteger(s, b.first, v, Chain(s, b.first).env);
    }
  }

  /** At the end of a block, if the fast paths fit so far, the rewritten code has what the helpers have. */
  ghost predicate KeepsUpAt(s: Setting, i: nat)
    requires Listed(s) && i < |s.order|
  {
    BlocksFit(s, s.order[i].last + 1) ==> InStepAt(s, s.order[i].last + 1)
  }

  ghost predicate KeepsUp(s: Setting) {
    Listed(s) && forall i: nat | i < |s.order| :: KeepsUpAt(s, i)
  }

  lemma BlockEndIsBetween(s: Setting, i: nat)
    requires Listed(s) && i < |s.order|
    ensures Between(s.order, s.order[i].first) && Between(s.order, s.order[i].last + 1)
  {
    forall j | 0 <= j < |s.order|
      ensures !(s.order[j].first < s.order[i].first <= s.order[j].last)
      ensures !(s.order[j].first < s.order[i].last + 1 <= s.order[j].last)
    {
      assert i < j ==> Apart(s.order[i], s.order[j]);
      assert j < i ==> Apart(s.order[j], s.order[i]);
    }
  }

  lemma SafeUpTo(s: Setting, n: nat)
    requires SafeBefore(s, |s.bb|) && n <= |s.bb|
    ensures SafeBefore(s, n)
  {
  }

  lemma SafeBlockKeepsUp(s: Setting, i: nat, k: nat)
    requires Prepared(s) && Listed(s) && SafeBefore(s, |s.bb|) && i < |s.order| && k == s.order[i].last + 1
    ensures KeepsUpAt(s, i)
  {
    SafeUpTo(s, k);
    BlockEndIsBetween(s, i);
    RewrittenIsRightExactlyWhen(s, k);
  }

  lemma TameTreeKeepsUp(t: Tree, s: Setting)
    requires TreeSetting(t, s) && Tame(t) && ConsumersFirst(s.bb, s.order)
    ensures KeepsUp(s)
  {
    TameIsSafe(t, s);
    SettingIsListed(s);
    forall i: nat | i < |s.order| ensures KeepsUpAt(s, i) {
      SafeBlockKeepsUp(s, i, s.order[i].last + 1);
    }
  }

  /* ---- An object at the head ---- */

  /** The chain of left operands that a value begins with ends in load `x`. */
  predicate Tainted(bb: BasicBlock, x: nat, v: Value)
    decreases if v.Local? then v.index + 1 else 0
  {
    match v
    case Loaded(k) => k == x
    case Local(j) =>
      j < |bb| && bb[j].Arith? && (bb[j].l.Local? ==> bb[j].l.index < j) && Tainted(bb, x, bb[j].l)
    case _ => false
  }

  lemma {:induction false} TaintedIsNotSure(bb: BasicBlock, x: nat, v: Value)
    requires Tainted(bb, x, v)
    ensures !Sure(bb, v)
    decreases if v.Local? then v.index + 1 else 0
  {
    if v.Local? {
      TaintedIsNotSure(bb, x, bb[v.index].l);
    }
  }

  lemma {:induction false} HeadIsTainted(bb: BasicBlock, t: Tree, base: nat)
    requires Placed(bb, t, base) && HeadIsVariable(t)
    ensures Size(t) > 0 && Tainted(bb, base, Root(t, base))
    decreases t
  {
    match t
    case Node(_, l, _) => HeadIsTainted(bb, l, base);
    case _ =>
  }

  /** A tree whose code begins after the load is untouched by it. */
  lemma {:induction false} LaterIsUntainted(bb: BasicBlock, t: Tree, base: nat, x: nat)
    requires Placed(bb, t, base) && x < base
    ensures !Tainted(bb, x, Root(t, base))
    ensures forall q: nat, v | base <= q < base + Size(t) && Uses(bb, q, v) :: !Tainted(bb, x, v)
    decreases t
  {
    match t
    case Node(_, l, r) =>
      LaterIsUntainted(bb, l, base, x);
      LaterIsUntainted(bb, r, base + Size(l), x);
    case _ =>
  }

  /** Code before the load is untouched by it. */
  lemma {:induction false} EarlierIsUntainted(bb: BasicBlock, t: Tree, q: nat, x: nat, v: Value)
    requires Placed(bb, t, 0) && q < Size(t) && q <= x && Uses(bb, q, v)
    ensures !Tainted(bb, x, v)
    decreases q
  {
    TreeOperands(bb, t, 0, q);
    if v.Loaded? {
      LoadsAreBefore(bb, t, 0, q, v.k);
    } else if v.Local? && IsArith(bb, v.index) {
      EarlierIsUntainted(bb, t, v.index, x, bb[v.index].l);
    }
  }

  /** In a tree that begins with the load, right operands are untouched by it. */
  lemma {:induction false} RightIsUntainted(bb: BasicBlock, t: Tree, base: nat, q: nat)
    requires Placed(bb, t, base) && HeadIsVariable(t) && base <= q < base + Size(t) && IsArith(bb, q)
    ensures !Tainted(bb, base, bb[q].r)
    decreases t
  {
    match t
    case Variable =>
    case Node(_, l, r) =>
      var m := base + Size(l);
      HeadIsTainted(bb, l, base);
      LaterIsUntainted(bb, r, m, base);
      if q < m {
        RightIsUntainted(bb, l, base, q);
      } else if q < m + Size(r) {
        assert Uses(bb, q, bb[q].r);
      }
  }

  /** Two calls never use the same load. */
  lemma {:induction false} LoadUsedOnce(bb: BasicBlock, t: Tree, base: nat, q: nat, q': nat, x: nat)
    requires Placed(bb, t, base) && base <= q < q' < base + Size(t)
    ensures !(Uses(bb, q, Loaded(x)) && Uses(bb, q', Loaded(x)))
    decreases t
  {
    match t
    case Variable =>
    case Literal(_) =>
    case Node(_, l, r) =>
      var m := base + Size(l);
      if Uses(bb, q, Loaded(x)) && Uses(bb, q', Loaded(x)) {
        LoadsInParts(bb, t, base, q, x);
        LoadsInParts(bb, t, base, q', x);
        if q' < m {
          LoadUsedOnce(bb, l, base, q, q', x);
        } else if m <= q && q' < m + Size(r) {
          LoadUsedOnce(bb, r, m, q, q', x);
        }
      }
  }

  /** A load of a part is used by a call of that part, or is the part and used by the root. */
  lemma LoadsInParts(bb: BasicBlock, t: Tree, base: nat, q: nat, x: nat)
    requires t.Node? && Placed(bb, t, base) && base <= q < base + Size(t) && Uses(bb, q, Loaded(x))
    ensures var m := base + Size(t.left);
            if q < m then base <= x < m && t.left.Node?
            else if q < m + Size(t.right) then m <= x && t.right.Node?
            else (t.left == Variable && x == base) || (t.right == Variable && x == m)
  {
    var m := base + Size(t.left);
    if q < m {
      LoadsAreBefore(bb, t.left, base, q, x);
    } else if q < m + Size(t.right) {
      LoadsAreBefore(bb, t.right, m, q, x);
    }
  }

  /* ---- The wide operator ---- */

  /** A wide operator: its place, its operands, and where they begin. */
  datatype Wide = Wide(k: nat, base: nat, left: Tree, right: Tree)

  function Middle(w: Wide): nat {
    w.base + Size(w.left)
  }

  ghost predicate IsWide(bb: BasicBlock, w: Wide) {
    && w.left.Node? && w.right.Node? && HasVariable(w.right) && HeadIsVariable(w.left)
    && Tame(w.left) && IntegerLiterals(w.left)
    && Placed(bb, w.left, w.base) && Placed(bb, w.right, Middle(w))
    && w.k == Middle(w) + Size(w.right) < |bb| && IsArith(bb, w.k)
    && bb[w.k].l == Root(w.left, w.base) && bb[w.k].r == Root(w.right, Middle(w))
  }

  lemma {:induction false} InnermostWide(bb: BasicBlock, t: Tree, base: nat) returns (w: Wide)
    requires Placed(bb, t, base) && IntegerLiterals(t) && !Tame(t)
    ensures IsWide(bb, w) && w.k < base + Size(t)
    decreases t
  {
    var Node(_, l, r) := t;
    if !Tame(l) {
      w := InnermostWide(bb, l, base);
    } else if !Tame(r) {
      w := InnermostWide(bb, r, base + Size(l));
    } else {
      w := Wide(base + Size(l) + Size(r), base, l, r);
    }
  }

  /** Before the wide operator, no right operand is touched by the load, and results only within its left operand. */
  lemma BeforeWide(bb: BasicBlock, t: Tree, w: Wide, q: nat)
    requires Placed(bb, t, 0) && IsWide(bb, w) && w.k < Size(t) && q < w.k && IsArith(bb, q)
    ensures !Tainted(bb, w.base, bb[q].r)
    ensures Tainted(bb, w.base, bb[q].l) ==> w.base <= q < Middle(w)
  {
    assert Uses(bb, q, bb[q].l) && Uses(bb, q, bb[q].r);
    HeadIsTainted(bb, w.left, w.base);
    if q <= w.base {
      EarlierIsUntainted(bb, t, q, w.base, bb[q].l);
      EarlierIsUntainted(bb, t, q, w.base, bb[q].r);
    } else if q < Middle(w) {
      RightIsUntainted(bb, w.left, w.base, q);
    } else {
      LaterIsUntainted(bb, w.right, Middle(w), w.base);
    }
  }

  /* ---- Two runs: on integers, and with an object in place of one ---- */

  function Answer(o: Word): Overload {
    (op: ArithOp, l: Word, r: Word) => Fine(o)
  }

  /** The load holds object `o`, and overloaded operators return it. */
  function Disturbed(s: Setting, x: nat, o: Word): Setting {
    s.(call := Answer(o), env := s.env[Loaded(x) := o])
  }

  predicate AllIntegers(c: Env) {
    forall v | v in c :: IsInteger(c[v])
  }

  /** All loads and all results so far have words. */
  ghost predicate HasAll(s: Setting, c: Env, k: nat) {
    && (forall v | v in s.env :: v in c)
    && (forall j: nat | j < k && IsArith(s.bb, j) :: Local(j) in c)
  }

  lemma {:induction false} ChainRanBefore(s: Setting, k: nat, n: nat)
    requires k <= n <= |s.bb| && Chain(s, n).Running?
    ensures Chain(s, k).Running?
    decreases n
  {
    if k < n {
      ChainUnfolds(s, n - 1, Chain(s, n - 1), Chain(s, n));
      ChainRanBefore(s, k, n - 1);
    }
  }

  /** Code whose constants are integers and whose operands are earlier results or given. */
  ghost predicate Closed(bb: BasicBlock, env: Env) {
    && (forall v | v in env :: !v.Local?)
    && (forall q: nat, v {:trigger Uses(bb, q, v)} | Uses(bb, q, v) ::
          if v.Const? then IsInteger(v.w)
          else if v.Local? then v.index < q && IsArith(bb, v.index)
          else v in env)
  }

  lemma TreeIsClosed(t: Tree, s: Setting)
    requires TreeSetting(t, s) && Placed(s.bb, t, 0) && |s.bb| == Size(t) + 1 && !IsArith(s.bb, Size(t))
    ensures Closed(s.bb, s.env)
  {
    forall q: nat, v | Uses(s.bb, q, v)
      ensures if v.Const? then IsInteger(v.w)
              else if v.Local? then v.index < q && IsArith(s.bb, v.index)
              else v in s.env
    {
      TreeOperands(s.bb, t, 0, q);
      match v
      case Const(word) => LiteralsAreIntegers(s.bb, t, 0, q, word);
      case Local(j) => ResultsAreCalls(s.bb, t, 0, q, j);
      case Loaded(k) => LoadsAreBefore(s.bb, t, 0, q, k);
    }
  }

  lemma OperandIsThere(s: Setting, q: nat, v: Value, c: Env)
    requires Closed(s.bb, s.env) && Uses(s.bb, q, v) && HasAll(s, c, q)
    ensures if v.Const? then IsInteger(v.w) else v in c && (v.Local? ==> v.index < q)
  {
  }

  /** With integers in, all results are integers. */
  lemma {:induction false} IntegersStay(s: Setting, k: nat, c: Env)
    requires Closed(s.bb, s.env) && AllIntegers(s.env) && k <= |s.bb| && Chain(s, k) == Running(c)
    ensures AllIntegers(c) && HasAll(s, c, k)
    decreases k
  {
    if k > 0 {
      var now := Chain(s, k - 1);
      ChainUnfolds(s, k - 1, now, Chain(s, k));
      IntegersStay(s, k - 1, now.env);
      if IsArith(s.bb, k - 1) {
        IntegerResult(s, k - 1, now.env, c);
      }
    }
  }

  lemma IntegerResult(s: Setting, q: nat, c: Env, c': Env)
    requires Closed(s.bb, s.env) && IsArith(s.bb, q)
    requires AllIntegers(c) && HasAll(s, c, q) && ChainStep(s.call, s.bb[q], q, c) == Running(c')
    ensures AllIntegers(c') && HasAll(s, c', q + 1)
  {
    assert Uses(s.bb, q, s.bb[q].l);
    OperandIsThere(s, q, s.bb[q].l, c);
    ResultIsInteger(s.call, s.bb[q], q, c, c');
  }

  /** The same words, but object `o` in everything that begins with the load. */
  ghost predicate Twin(bb: BasicBlock, x: nat, o: Word, c: Env, c0: Env) {
    c.Keys == c0.Keys && forall v | v in c :: c[v] == if Tainted(bb, x, v) then o else c0[v]
  }

  /** After a call on twins: it fails if only the right operand is the object, and otherwise leaves twins. */
  lemma TwinStep(bb: BasicBlock, x: nat, o: Word, q: nat, c: Env, c0: Env, call: Overload)
    requires IsArith(bb, q) && Twin(bb, x, o, c, c0) && AllIntegers(c0) && !IsInteger(o)
    requires forall v | Uses(bb, q, v) :: if v.Const? then IsInteger(v.w) else v in c0 && (v.Local? ==> v.index < q)
    requires ChainStep(call, bb[q], q, c0).Running?
    ensures var next := ChainStep(Answer(o), bb[q], q, c);
            if Tainted(bb, x, bb[q].r) && !Tainted(bb, x, bb[q].l) then next == Aborted
            else next.Running? && Twin(bb, x, o, next.env, ChainStep(call, bb[q], q, c0).env)
  {
    var l, r := bb[q].l, bb[q].r;
    assert Uses(bb, q, l) && Uses(bb, q, r);
    assert Tainted(bb, x, Local(q)) <==> Tainted(bb, x, l);
    assert WordFor(l, c) == if Tainted(bb, x, l) then o else WordFor(l, c0);
    assert WordFor(r, c) == if Tainted(bb, x, r) then o else WordFor(r, c0);
  }

  ghost predicate TwinRuns(s: Setting, x: nat, o: Word, run: Run, c0: Env) {
    match run
    case Running(c) => Twin(s.bb, x, o, c, c0)
    case Aborted => true
    case Undefined => false
  }

  /** The disturbed run stays a twin of the run on integers, or fails. */
  lemma {:induction false} Lockstep(s: Setting, x: nat, o: Word, k: nat, c0: Env)
    requires Closed(s.bb, s.env) && AllIntegers(s.env) && Loaded(x) in s.env && !IsInteger(o)
    requires k <= |s.bb| && Chain(s, k) == Running(c0)
    ensures TwinRuns(s, x, o, Chain(Disturbed(s, x, o), k), c0)
    ensures (forall q: nat | q < k && IsArith(s.bb, q) :: !Tainted(s.bb, x, s.bb[q].r)) ==>
              Chain(Disturbed(s, x, o), k).Running?
    decreases k
  {
    var d := Disturbed(s, x, o);
    if k > 0 {
      var now0, now := Chain(s, k - 1), Chain(d, k - 1);
      ChainUnfolds(s, k - 1, now0, Chain(s, k));
      ChainUnfolds(d, k - 1, now, Chain(d, k));
      Lockstep(s, x, o, k - 1, now0.env);
      IntegersStay(s, k - 1, now0.env);
      InStepAfter(s, x, o, k - 1, now, now0.env, Chain(d, k), c0);
    }
  }

  lemma InStepAfter(s: Setting, x: nat, o: Word, q: nat, now: Run, now0: Env, next: Run, next0: Env)
    requires Closed(s.bb, s.env) && q < |s.bb| && AllIntegers(now0) && HasAll(s, now0, q) && !IsInteger(o)
    requires TwinRuns(s, x, o, now, now0) && ChainStep(s.call, s.bb[q], q, now0) == Running(next0)
    requires next == if now.Running? then ChainStep(Answer(o), s.bb[q], q, now.env) else now
    ensures TwinRuns(s, x, o, next, next0)
    ensures now.Running? && (IsArith(s.bb, q) ==> !Tainted(s.bb, x, s.bb[q].r)) ==> next.Running?
  {
    if IsArith(s.bb, q) && now.Running? {
      CallOnTwins(s, x, o, q, now.env, now0);
    }
  }

  lemma CallOnTwins(s: Setting, x: nat, o: Word, q: nat, c: Env, c0: Env)
    requires Closed(s.bb, s.env) && IsArith(s.bb, q)
    requires Twin(s.bb, x, o, c, c0) && AllIntegers(c0) && HasAll(s, c0, q) && !IsInteger(o)
    requires ChainStep(s.call, s.bb[q], q, c0).Running?
    ensures var next := ChainStep(Answer(o), s.bb[q], q, c);
            if Tainted(s.bb, x, s.bb[q].r) && !Tainted(s.bb, x, s.bb[q].l) then next == Aborted
            else next.Running? && Twin(s.bb, x, o, next.env, ChainStep(s.call, s.bb[q], q, c0).env)
  {
    forall v | Uses(s.bb, q, v)
      ensures if v.Const? then IsInteger(v.w) else v in c0 && (v.Local? ==> v.index < q)
    {
      OperandIsThere(s, q, v, c0);
    }
    TwinStep(s.bb, x, o, q, c, c0, s.call);
  }

  /* ---- The block of the wide operator ---- */

  /** A tree with a wide operator, lowered in a good order, and integers on which the helpers compute it. */
  ghost predicate Adverse(t: Tree, s: Setting, w: Wide) {
    && TreeSetting(t, s) && Placed(s.bb, t, 0) && |s.bb| == Size(t) + 1 && !IsArith(s.bb, Size(t))
    && Closed(s.bb, s.env) && AllIntegers(s.env) && Chain(s, |s.bb|).Running? && ConsumersFirst(s.bb, s.order)
    && IsWide(s.bb, w) && w.k < Size(t)
  }

  /** The block holds the wide operator and begins after its left operand, but before itself. */
  predicate HoldsWide(s: Setting, w: Wide, i: nat) {
    i < |s.order| && Middle(w) <= s.order[i].first < w.k <= s.order[i].last
  }

  lemma WideBlockBegins(bb: BasicBlock, counts: Counts, k: nat, b: Selected, last: nat, q: nat)
    requires UsedOnce(bb, counts) && Recorded(bb, counts, b) && b.first <= k - 1 <= b.last
    requires IsArith(bb, last) && !IsArith(bb, q) && IsArith(bb, k - 1) && last < q < k - 1
    requires Uses(bb, k, Local(last)) && Uses(bb, k, Local(k - 1))
    ensures last + 1 <= b.first < k <= b.last
  {
    WideBlock(bb, counts, b, k, last, q);
    var k': nat :| b.first < k' <= b.last && Uses(bb, k', Local(last));
    UsedByOne(bb, counts, last, k, k');
  }

  lemma UsedByOne(bb: BasicBlock, counts: Counts, j: nat, k: nat, k': nat)
    requires UsedOnce(bb, counts) && IsArith(bb, j) && Uses(bb, k, Local(j)) && Uses(bb, k', Local(j))
    ensures k == k'
  {
    assert Local(j) in counts;
  }

  lemma WideOperatorIsRecorded(t: Tree, s: Setting, w: Wide) returns (i: nat)
    requires Adverse(t, s, w)
    ensures HoldsWide(s, w, i) && Prepared(s) && Listed(s)
  {
    TreeIsPrepared(t, s);
    SettingIsListed(s);
    HeadIsTainted(s.bb, w.left, w.base);
    i := WideBlockAt(s, w);
  }

  lemma WideBlockAt(s: Setting, w: Wide) returns (i: nat)
    requires Prepared(s) && IsWide(s.bb, w) && Size(w.left) > 0
    ensures HoldsWide(s, w, i)
  {
    var q := WideUses(s.bb, w, Middle(w) - 1);
    i := LoweredAt(s, w.k - 1);
    WideBlockBegins(s.bb, s.counts, w.k, s.order[i], Middle(w) - 1, q);
  }

  lemma WideUses(bb: BasicBlock, w: Wide, last: nat) returns (q: nat)
    requires IsWide(bb, w) && last + 1 == Middle(w)
    ensures IsArith(bb, last) && !IsArith(bb, q) && IsArith(bb, w.k - 1) && last < q < w.k - 1
    ensures Uses(bb, w.k, Local(last)) && Uses(bb, w.k, Local(w.k - 1))
  {
    q := VariableIsLoaded(bb, w.right, Middle(w));
  }

  lemma LoweredAt(s: Setting, k: nat) returns (i: nat)
    requires Prepared(s) && IsArith(s.bb, k)
    ensures i < |s.order| && Recorded(s.bb, s.counts, s.order[i]) && s.order[i].first <= k <= s.order[i].last
  {
    var b := CallIsRecorded(s.bb, s.counts, ScanTo(s.bb, s.counts, |s.bb|), k);
    i :| 0 <= i < |s.order| && s.order[i] == b;
  }

  lemma {:induction false} HeadLoadIsUsed(bb: BasicBlock, t: Tree, base: nat) returns (q: nat)
    requires Placed(bb, t, base) && t.Node? && HeadIsVariable(t)
    ensures base <= q < base + Size(t) && Uses(bb, q, Loaded(base))
    decreases t
  {
    if t.left.Node? {
      q := HeadLoadIsUsed(bb, t.left, base);
    } else {
      q := base + Size(t.left) + Size(t.right);
    }
  }

  /** The block takes the object in one place only: as the left operand of the wide operator. */
  lemma TaintedInBlock(t: Tree, s: Setting, w: Wide, i: nat, q: nat, v: Value)
    requires Adverse(t, s, w) && UsedOnce(s.bb, s.counts) && HoldsWide(s, w, i) && Uses(s.bb, q, v)
    requires s.order[i].first <= q <= s.order[i].last < Size(t)
    requires Tainted(s.bb, w.base, v) && !Within(s.order[i], v)
    ensures v == Local(Middle(w) - 1) && q == w.k
  {
    HeadIsTainted(s.bb, w.left, w.base);
    if v.Loaded? {
      var p := HeadLoadIsUsed(s.bb, w.left, w.base);
      LoadUsedOnce(s.bb, t, 0, p, q, w.base);
    } else {
      BeforeWide(s.bb, t, w, v.index);
      assert v in s.counts;
      if v.index < Middle(w) - 1 {
        TreeUsesAll(s.bb, w.left, w.base, v.index);
      } else {
        assert Uses(s.bb, w.k, v);
      }
    }
  }

  lemma DisturbedTree(t: Tree, s: Setting, w: Wide, o: Word)
    requires Adverse(t, s, w) && Tag(o) == 0
    ensures TreeSetting(t, Disturbed(s, w.base, o)) && Loaded(w.base) in s.env
    ensures Prepared(Disturbed(s, w.base, o))
  {
    HeadIsTainted(s.bb, w.left, w.base);
    assert ReturnsValues(Answer(o));
    TreeIsPrepared(t, Disturbed(s, w.base, o));
  }

  /** Where the disturbed run is before the wide operator. */
  lemma RunBeforeWide(t: Tree, s: Setting, w: Wide, o: Word, k: nat) returns (c: Env, c0: Env)
    requires Adverse(t, s, w) && !IsInteger(o) && Loaded(w.base) in s.env && k <= w.k
    ensures Chain(s, k) == Running(c0) && AllIntegers(c0) && HasAll(s, c0, k)
    ensures Chain(Disturbed(s, w.base, o), k) == Running(c) && Twin(s.bb, w.base, o, c, c0)
  {
    ChainRanBefore(s, k, |s.bb|);
    c0 := Chain(s, k).env;
    IntegersStay(s, k, c0);
    forall q: nat | q < k && IsArith(s.bb, q) ensures !Tainted(s.bb, w.base, s.bb[q].r) {
      BeforeWide(s.bb, t, w, q);
    }
    Lockstep(s, w.base, o, k, c0);
    c := Chain(Disturbed(s, w.base, o), k).env;
  }

  /** Blocks before that of the wide operator are safe in the disturbed run. */
  lemma EarlierAreSafe(t: Tree, s: Setting, w: Wide, o: Word, n: nat)
    requires Adverse(t, s, w) && Prepared(s) && !IsInteger(o) && Loaded(w.base) in s.env && n <= w.k
    ensures SafeBefore(Disturbed(s, w.base, o), n)
  {
    var d := Disturbed(s, w.base, o);
    Settle(s);
    forall i: nat | i < |d.order| && d.order[i].last < n ensures BlockIsSafe(d, i) {
      assert LoweredInTime(s.bb, s.order, i) && s.order[i] in s.order;
      forall v | ForeignResult(d.bb, d.counts, d.order[i], v)
        ensures d.order[i].first <= |d.bb| && IntegerAt(Chain(d, d.order[i].first), v)
      {
        ForeignStaysInteger(t, s, w, o, s.order[i], v);
      }
    }
  }

  lemma ForeignStaysInteger(t: Tree, s: Setting, w: Wide, o: Word, b: Selected, v: Value)
    requires Adverse(t, s, w) && !IsInteger(o) && Loaded(w.base) in s.env && UsedOnce(s.bb, s.counts)
    requires Recorded(s.bb, s.counts, b) && b.first <= b.last < w.k && ForeignResult(s.bb, s.counts, b, v)
    ensures IntegerAt(Chain(Disturbed(s, w.base, o), b.first), v)
  {
    var k: nat :| b.first < k <= b.last && Uses(s.bb, k, v);
    EarlierForeign(t, s, w, b, k, v);
    var c, c0 := RunBeforeWide(t, s, w, o, b.first);
  }

  lemma EarlierForeign(t: Tree, s: Setting, w: Wide, b: Selected, k: nat, v: Value)
    requires Adverse(t, s, w) && UsedOnce(s.bb, s.counts) && Recorded(s.bb, s.counts, b)
    requires ForeignResult(s.bb, s.counts, b, v) && b.first < k <= b.last < w.k && Uses(s.bb, k, v)
    ensures v.Local? && v.index < b.first && IsArith(s.bb, v.index) && !Tainted(s.bb, w.base, v)
  {
    assert v.Local?;
    ResultsAreCalls(s.bb, t, 0, k, v.index);
    BeforeWide(s.bb, t, w, k);
    if Tainted(s.bb, w.base, v) {
      assert v == s.bb[k].l;
      TameOperand(s.bb, w.left, w.base, k, v.index);
      TaintedIsNotSure(s.bb, w.base, v);
      ForeignIsNotReached(s.bb, s.counts, b, k, v.index);
    }
  }

  /* ---- What it makes of the object ---- */

  /** Both runs before the block: the chains are twins, and the rewritten runs agree with them. */
  datatype Before = Before(c: Env, c0: Env, r: Env, r0: Env)

  ghost predicate IsBefore(s: Setting, d: Setting, x: nat, o: Word, n: nat, e: Before) {
    match e
    case Before(c, c0, r, r0) =>
      && n <= |s.bb| == |s.code| && |d.code| == |d.bb| == |s.bb|
      && Chain(s, n) == Running(c0) && AllIntegers(c0) && HasAll(s, c0, n)
      && Chain(d, n) == Running(c) && Twin(s.bb, x, o, c, c0)
      && Rewrite(s, n) == Running(r0) && Agree(s, c0, r0, n)
      && Rewrite(d, n) == Running(r) && Agree(d, c, r, n)
  }

  lemma SafeRunIsInStep(s: Setting, n: nat)
    requires Prepared(s) && n <= |s.bb| && SafeBefore(s, n) && Between(s.order, n) && Chain(s, n).Running?
    ensures Listed(s) && BlocksFit(s, n) && Rewrite(s, n).Running? && Agree(s, Chain(s, n).env, Rewrite(s, n).env, n)
  {
    RewrittenIsRightExactlyWhen(s, n);
  }

  /** On integers all blocks are safe. */
  lemma IntegersAreSafe(s: Setting, n: nat)
    requires Closed(s.bb, s.env) && AllIntegers(s.env) && UsedOnce(s.bb, s.counts) && Listed(s) && n <= |s.bb|
    requires forall i: nat | i < |s.order| && s.order[i].last < n :: LoweredInTime(s.bb, s.order, i)
    ensures SafeBefore(s, n)
  {
    forall i: nat | i < |s.order| && s.order[i].last < n ensures BlockIsSafe(s, i) {
      forall v | ForeignResult(s.bb, s.counts, s.order[i], v)
        ensures s.order[i].first <= |s.bb| && IntegerAt(Chain(s, s.order[i].first), v)
      {
        if Chain(s, s.order[i].first).Running? {
          IntegersStay(s, s.order[i].first, Chain(s, s.order[i].first).env);
        }
      }
    }
  }

  lemma StateBefore(t: Tree, s: Setting, w: Wide, o: Word, i: nat) returns (e: Before)
    requires Adverse(t, s, w) && Prepared(s) && Listed(s) && HoldsWide(s, w, i) && Tag(o) == 0
    ensures IsBefore(s, Disturbed(s, w.base, o), w.base, o, s.order[i].first, e)
    ensures Listed(Disturbed(s, w.base, o)) && BlocksFit(Disturbed(s, w.base, o), s.order[i].first)
    ensures Prepared(Disturbed(s, w.base, o)) && BlocksFit(s, |s.bb|) && SafeBefore(s, |s.bb|)
  {
    var d, n := Disturbed(s, w.base, o), s.order[i].first;
    DisturbedTree(t, s, w, o);
    var c, c0 := RunBeforeWide(t, s, w, o, n);
    EarlierAreSafe(t, s, w, o, n);
    BlockEndIsBetween(s, i);
    EndIsBetween(s);
    IntegersAreSafe(s, |s.bb|);
    SafeRunIsInStep(s, |s.bb|);
    SafeRunIsInStep(s, n);
    SafeRunIsInStep(d, n);
    e := Before(c, c0, Rewrite(d, n).env, Rewrite(s, n).env);
  }

  /** The setting of the argument: the state before the block, and an object with the number it stands in for. */
  ghost predicate Staged(t: Tree, s: Setting, w: Wide, o: Word, i: nat, e: Before) {
    match e
    case Before(_, c0, _, _) =>
      && Adverse(t, s, w) && Prepared(s) && Listed(s) && HoldsWide(s, w, i)
      && Prepared(Disturbed(s, w.base, o)) && Listed(Disturbed(s, w.base, o))
      && IsBefore(s, Disturbed(s, w.base, o), w.base, o, s.order[i].first, e)
      && Tag(o) == 0 && Local(Middle(w) - 1) in c0 && Shr3(o) == Shr3(c0[Local(Middle(w) - 1)])
  }

  /** The guard of the block passes in both runs: it does not look at the object. */
  lemma GuardPasses(t: Tree, s: Setting, w: Wide, o: Word, i: nat, e: Before)
    requires Staged(t, s, w, o, i, e)
    ensures s.regions[i].guard <= e.r.Keys && Guard(s.regions[i].guard, e.r)
  {
    var d, b := Disturbed(s, w.base, o), s.order[i];
    Settle(s);
    GuardIs(s, i);
    assert b in s.order && LoweredInTime(s.bb, s.order, i);
    forall u | u in s.regions[i].guard ensures u in e.r && e.r[u] % 2 == 1 {
      var v :| v in b.args && u == Redirect(Lasts(s.order[i..]), v);
      var k := TestedIsDefined(d, i, e.c, e.r, v);
      TestedIsInteger(t, s, w, o, i, e, k, v);
      IntegerIsOdd(e.r[u]);
    }
  }

  lemma TestedIsInteger(t: Tree, s: Setting, w: Wide, o: Word, i: nat, e: Before, k: nat, v: Value)
    requires Staged(t, s, w, o, i, e) && v in s.order[i].args
    requires s.order[i].first <= k <= s.order[i].last && Uses(s.bb, k, v)
    requires k == s.order[i].first || v !in s.counts
    ensures IsInteger(WordFor(v, e.c))
  {
    Settle(s);
    var b := s.order[i];
    assert b in s.order && IsArith(s.bb, b.last);
    ArgumentsAreOutside(s.bb, s.counts, b);
    OutsideIsThere(s, b, k, v, e.c0);
    if Tainted(s.bb, w.base, v) {
      TaintedInBlock(t, s, w, i, k, v);
    }
  }

  /** What a block takes from outside has a word before it begins. */
  lemma OutsideIsThere(s: Setting, b: Selected, k: nat, v: Value, c: Env)
    requires Closed(s.bb, s.env) && Uses(s.bb, k, v) && !Within(b, v) && b.first <= k <= b.last
    requires HasAll(s, c, b.first)
    ensures if v.Const? then IsInteger(v.w) else v in c
  {
  }

  predicate SameNumber(o: Operand, env: Env, env': Env) {
    o.Outside? ==> o.name in env && o.name in env' && Shr3(env[o.name]) == Shr3(env'[o.name])
  }

  lemma {:induction false} FastSeesOperands(block: Block, env: Env, env': Env, n: nat)
    requires WellFormed(block, env) && WellFormed(block, env') && n <= |block|
    requires forall m: nat | m < |block| :: SameNumber(block[m].lhs, env, env') && SameNumber(block[m].rhs, env, env')
    ensures Fast(block, env, n) == Fast(block, env', n)
    decreases n
  {
    if n > 0 {
      FastSeesOperands(block, env, env', n - 1);
      assert OperandOk(block[n - 1].lhs, n - 1, env) && OperandOk(block[n - 1].rhs, n - 1, env);
      assert SameNumber(block[n - 1].lhs, env, env') && SameNumber(block[n - 1].rhs, env, env');
    }
  }

  /** All that the block takes and that the load touches is value `u`. */
  ghost predicate TakesOnly(bb: BasicBlock, b: Selected, x: nat, u: Value) {
    forall q: nat, v | b.first <= q <= b.last && Uses(bb, q, v) && Tainted(bb, x, v) && !Within(b, v) :: v == u
  }

  lemma WideIsTaken(t: Tree, s: Setting, w: Wide, i: nat)
    requires Adverse(t, s, w) && Prepared(s) && HoldsWide(s, w, i) && s.order[i].last < Size(t)
    ensures TakesOnly(s.bb, s.order[i], w.base, Local(Middle(w) - 1))
  {
    var b := s.order[i];
    forall q: nat, v | b.first <= q <= b.last && Uses(s.bb, q, v) && Tainted(s.bb, w.base, v) && !Within(b, v)
      ensures v == Local(Middle(w) - 1)
    {
      TaintedInBlock(t, s, w, i, q, v);
    }
  }

  lemma OperandHasNumber(
    bb: BasicBlock, b: Selected, x: nat, o: Word, u: Value, e: Before, n: nat, opd: Operand, v: Value)
    requires TakesOnly(bb, b, x, u) && Twin(bb, x, o, e.c, e.c0) && u in e.c0 && Shr3(o) == Shr3(e.c0[u])
    requires b.first + n <= b.last && Uses(bb, b.first + n, v)
    requires Reads(b, opd, v, n, e.c, e.r) && Reads(b, opd, v, n, e.c0, e.r0)
    ensures SameNumber(opd, e.r, e.r0)
  {
  }

  lemma NumbersAreSame(bb: BasicBlock, b: Selected, x: nat, o: Word, u: Value, e: Before, block: Block)
    requires TakesOnly(bb, b, x, u) && Twin(bb, x, o, e.c, e.c0) && u in e.c0 && Shr3(o) == Shr3(e.c0[u])
    requires |block| == b.last - b.first + 1 && b.first <= b.last
    requires Corresponds(bb, b, block, e.c, e.r) && Corresponds(bb, b, block, e.c0, e.r0)
    ensures WellFormed(block, e.r) && WellFormed(block, e.r0) && Fast(block, e.r, |block|) == Fast(block, e.r0, |block|)
  {
    CorrespondingReads(bb, b, block, e.c, e.r);
    CorrespondingReads(bb, b, block, e.c0, e.r0);
    forall m: nat | m < |block|
      ensures SameNumber(block[m].lhs, e.r, e.r0) && SameNumber(block[m].rhs, e.r, e.r0)
    {
      assert CallReadsAs(bb, b, block[m], m, e.c, e.r) && CallReadsAs(bb, b, block[m], m, e.c0, e.r0);
      OperandHasNumber(bb, b, x, o, u, e, m, block[m].lhs, bb[b.first + m].l);
      OperandHasNumber(bb, b, x, o, u, e, m, block[m].rhs, bb[b.first + m].r);
    }
    FastSeesOperands(block, e.r, e.r0, |block|);
  }

  /** The final code of the block reads what the original does, in both runs. */
  lemma BothCorrespond(t: Tree, s: Setting, w: Wide, o: Word, i: nat, e: Before, block: Block)
    requires Staged(t, s, w, o, i, e) && IsRun(s.code, s.order[i]) && block == BlockOf(s.code, s.order[i])
    ensures Corresponds(s.bb, s.order[i], block, e.c, e.r) && Corresponds(s.bb, s.order[i], block, e.c0, e.r0)
  {
    assert s.order[i] in s.order;
    BlockCorresponds(Disturbed(s, w.base, o), s.order[i], e.c, e.r, block);
    BlockCorresponds(s, s.order[i], e.c0, e.r0, block);
  }

  /** If the helpers run through a block on integers, nothing in it overflows. */
  lemma HelpersFit(s: Setting, b: Selected, c: Env, r: Env, block: Block, end: nat)
    requires Corresponds(s.bb, b, block, c, r) && WellFormed(block, r) && Safe(block, {}, r) && ValidEnv(r)
    requires end == b.first + |block| <= |s.bb| && Chain(s, b.first) == Running(c) && Chain(s, |s.bb|).Running?
    ensures NoOverflow(block, r)
  {
    ChainRanBefore(s, end, |s.bb|);
    SlowIsChain(s, b, c, r, |block|, block, Chain(s, end), Slow(s.call, block, r, |block|));
    PathsInStep(s.call, block, r, {}, |block|);
  }

  /** So it is in the run on integers, and then in the disturbed one. */
  lemma BlockFits(t: Tree, s: Setting, w: Wide, o: Word, i: nat, e: Before, block: Block)
    requires Staged(t, s, w, o, i, e) && IsRun(s.code, s.order[i]) && block == BlockOf(s.code, s.order[i])
    ensures WellFormed(block, e.r) && NoOverflow(block, e.r)
  {
    LastIsInTree(t, s, w, i);
    BothCorrespond(t, s, w, o, i, e, block);
    BlockFitsIntegers(s, s.order[i], e.c0, e.r0, block);
    WideIsTaken(t, s, w, i);
    NumbersAreSame(s.bb, s.order[i], w.base, o, Local(Middle(w) - 1), e, block);
  }

  lemma BlockFitsIntegers(s: Setting, b: Selected, c: Env, r: Env, block: Block)
    requires Prepared(s) && b in s.order && b.first <= b.last < |s.bb| && Chain(s, |s.bb|).Running?
    requires IsRun(s.code, b) && block == BlockOf(s.code, b) && AllIntegers(c) && ValidEnv(r)
    requires Corresponds(s.bb, b, block, c, r) && Chain(s, b.first) == Running(c)
    ensures WellFormed(block, r) && NoOverflow(block, r)
  {
    CorrespondingReads(s.bb, b, block, c, r);
    IntegersAreTaken(s, b, c, r, block);
    HelpersFit(s, b, c, r, block, b.first + |block|);
  }

  lemma LastIsInTree(t: Tree, s: Setting, w: Wide, i: nat)
    requires Adverse(t, s, w) && Prepared(s) && i < |s.order|
    ensures s.order[i].last < Size(t) && IsRun(s.bb, s.order[i])
  {
    Settle(s);
    assert s.order[i] in s.order && IsArith(s.bb, s.order[i].last);
  }

  lemma IntegersAreTaken(s: Setting, b: Selected, c: Env, r: Env, block: Block)
    requires Prepared(s) && b in s.order && IsRun(s.code, b) && block == BlockOf(s.code, b)
    requires AllIntegers(c) && Corresponds(s.bb, b, block, c, r)
    ensures Safe(block, {}, r)
  {
    forall x | UsedIn(block, Outside(x)) ensures x in r && IsInteger(r[x]) {
      OutsideIsInteger(s.bb, b, c, r, block, x);
    }
    forall word | UsedIn(block, Constant(word)) ensures IsInteger(word) {
      ConstantIsInteger(s, b, word);
    }
  }

  lemma OutsideIsInteger(bb: BasicBlock, b: Selected, c: Env, r: Env, block: Block, x: Value)
    requires AllIntegers(c) && Corresponds(bb, b, block, c, r) && UsedIn(block, Outside(x))
    ensures x in r && IsInteger(r[x])
  {
    var n: nat :| n < |block| && (block[n].lhs == Outside(x) || block[n].rhs == Outside(x));
    assert CallReadsAs(bb, b, block[n], n, c, r);
  }

  lemma CodeIsRun(s: Setting, i: nat)
    requires Prepared(s) && i < |s.order|
    ensures IsRun(s.code, s.order[i])
  {
    Settle(s);
    assert s.order[i] in s.order;
  }

  /** The block takes its fast path, which fits. */
  lemma FastPathFits(s: Setting, i: nat, block: Block, r: Env)
    requires Listed(s) && i < |s.order| && IsRun(s.code, s.order[i])
    requires block == BlockOf(s.code, s.order[i]) && WellFormed(block, r) && NoOverflow(block, r)
    requires Rewrite(s, s.order[i].first) == Running(r)
    ensures FitsAt(s, i)
  {
    NothingEnds(s, i, s.order[i].last);
  }

  /** It leaves an integer. */
  lemma FastPathLeavesInteger(s: Setting, i: nat, block: Block, r: Env, last: nat) returns (r': Env)
    requires Listed(s) && i < |s.order| && IsRun(s.code, s.order[i]) && last == s.order[i].last
    requires block == BlockOf(s.code, s.order[i]) && WellFormed(block, r) && NoOverflow(block, r)
    requires Computes(s.regions[i].fast, s.regions[i].result, block)
    requires s.regions[i].guard <= r.Keys && Guard(s.regions[i].guard, r)
    requires Rewrite(s, s.order[i].first) == Running(r)
    ensures Rewrite(s, last + 1) == Running(r') && Join(last) in r' && IsInteger(r'[Join(last)])
  {
    RegionLeavesInteger(s, i, block, r);
    RegionIsRun(s, i, r);
    r' := Rewrite(s, last + 1).env;
  }

  lemma RegionComputes(s: Setting, i: nat)
    requires Prepared(s) && Listed(s) && i < |s.order| && IsRun(s.code, s.order[i])
    ensures Computes(s.regions[i].fast, s.regions[i].result, BlockOf(s.code, s.order[i]))
  {
    RegionIsLowered(s, i);
  }

  lemma RegionIsRun(s: Setting, i: nat, r: Env)
    requires Listed(s) && i < |s.order| && Rewrite(s, s.order[i].first) == Running(r)
    ensures Rewrite(s, s.order[i].last) == Running(r)
    ensures Rewrite(s, s.order[i].last + 1) == RunRegion(s.call, s.code, s.regions[i], r)
  {
    NothingEnds(s, i, s.order[i].last);
    OwnPosition(s, i, s.order[i].last);
  }

  lemma RegionLeavesInteger(s: Setting, i: nat, block: Block, r: Env)
    requires Listed(s) && i < |s.order| && IsRun(s.code, s.order[i])
    requires block == BlockOf(s.code, s.order[i]) && WellFormed(block, r) && NoOverflow(block, r)
    requires Computes(s.regions[i].fast, s.regions[i].result, block)
    requires s.regions[i].guard <= r.Keys && Guard(s.regions[i].guard, r)
    ensures var run, last := RunRegion(s.call, s.code, s.regions[i], r), s.order[i].last;
            run.Running? && Join(last) in run.env && IsInteger(run.env[Join(last)])
  {
    var vals := Fast(block, r, |block|).vals;
    EncodeDecode(vals[|block| - 1]);
  }

  lemma {:induction false} AbortedChain(s: Setting, k: nat, n: nat)
    requires k <= n <= |s.bb| && Chain(s, k) == Aborted
    ensures Chain(s, n) == Aborted
    decreases n
  {
    if k < n {
      AbortedChain(s, k, n - 1);
      ChainUnfolds(s, n - 1, Chain(s, n - 1), Chain(s, n));
    }
  }

  /** From call to call the object is on the left, until the end of the block or a call that has it on the right. */
  lemma {:induction false} ObjectGoesOn(bb: BasicBlock, counts: Counts, b: Selected, x: nat, q: nat) returns (p: nat)
    requires UsedOnce(bb, counts) && Sound(bb, b) && b.first <= q <= b.last && Tainted(bb, x, Local(q))
    ensures Tainted(bb, x, Local(b.last))
            || (IsArith(bb, p) && p <= b.last && Tainted(bb, x, bb[p].r) && !Tainted(bb, x, bb[p].l))
    decreases b.last - q
  {
    p := q;
    if q < b.last {
      assert UsedBy(bb, q, b.last);
      p :| q < p <= b.last && Uses(bb, p, Local(q));
      assert Uses(bb, p, bb[p].l);
      if bb[p].l == Local(q) || Tainted(bb, x, bb[p].l) {
        p := ObjectGoesOn(bb, counts, b, x, p);
      }
    }
  }

  /** In the chain of helpers the object comes out of the block, or makes a helper fail. */
  lemma ObjectFlows(t: Tree, s: Setting, w: Wide, o: Word, b: Selected)
    requires Adverse(t, s, w) && UsedOnce(s.bb, s.counts) && Sound(s.bb, b) && b.first <= w.k <= b.last < Size(t)
    requires Loaded(w.base) in s.env && !IsInteger(o)
    ensures Tainted(s.bb, w.base, Local(b.last)) || Chain(Disturbed(s, w.base, o), b.last + 1) == Aborted
  {
    WideIsTainted(t, s, w);
    var p := ObjectGoesOn(s.bb, s.counts, b, w.base, w.k);
    if !Tainted(s.bb, w.base, Local(b.last)) {
      FailsOnTheRight(t, s, w, o, p, b.last + 1);
    }
  }

  lemma WideIsTainted(t: Tree, s: Setting, w: Wide)
    requires Adverse(t, s, w)
    ensures Tainted(s.bb, w.base, Local(w.k))
  {
    HeadIsTainted(s.bb, w.left, w.base);
    TreeOperands(s.bb, t, 0, w.k);
    assert Uses(s.bb, w.k, s.bb[w.k].l);
  }

  lemma BlockKeepsToItself(s: Setting, i: nat)
    requires Prepared(s) && i < |s.order|
    ensures Sound(s.bb, s.order[i])
  {
    Settle(s);
    assert s.order[i] in s.order;
    BlockIsSound(s.bb, s.counts, s.order[i]);
  }

  lemma FailsOnTheRight(t: Tree, s: Setting, w: Wide, o: Word, p: nat, n: nat)
    requires Adverse(t, s, w) && Loaded(w.base) in s.env && !IsInteger(o) && IsArith(s.bb, p) && p < n <= Size(t)
    requires Tainted(s.bb, w.base, s.bb[p].r) && !Tainted(s.bb, w.base, s.bb[p].l)
    ensures Chain(Disturbed(s, w.base, o), n) == Aborted
  {
    CallFails(t, s, w, o, p);
    AbortedChain(Disturbed(s, w.base, o), p + 1, n);
  }

  lemma CallFails(t: Tree, s: Setting, w: Wide, o: Word, p: nat)
    requires Adverse(t, s, w) && Loaded(w.base) in s.env && !IsInteger(o) && p < Size(t) && IsArith(s.bb, p)
    requires Tainted(s.bb, w.base, s.bb[p].r) && !Tainted(s.bb, w.base, s.bb[p].l)
    ensures Chain(Disturbed(s, w.base, o), p + 1) == Aborted
  {
    var d := Disturbed(s, w.base, o);
    ChainRanBefore(s, p, |s.bb|);
    ChainRanBefore(s, p + 1, |s.bb|);
    var c0 := Chain(s, p).env;
    IntegersStay(s, p, c0);
    Lockstep(s, w.base, o, p, c0);
    ChainUnfolds(s, p, Chain(s, p), Chain(s, p + 1));
    ChainUnfolds(d, p, Chain(d, p), Chain(d, p + 1));
    FailsAfter(s, w.base, o, p, Chain(d, p), c0, Chain(d, p + 1));
  }

  lemma FailsAfter(s: Setting, x: nat, o: Word, q: nat, now: Run, now0: Env, next: Run)
    requires Closed(s.bb, s.env) && IsArith(s.bb, q)
    requires AllIntegers(now0) && HasAll(s, now0, q) && !IsInteger(o) && TwinRuns(s, x, o, now, now0)
    requires ChainStep(s.call, s.bb[q], q, now0).Running? && Tainted(s.bb, x, s.bb[q].r) && !Tainted(s.bb, x, s.bb[q].l)
    requires next == if now.Running? then ChainStep(Answer(o), s.bb[q], q, now.env) else now
    ensures next == Aborted
  {
    if now.Running? {
      CallOnTwins(s, x, o, q, now.env, now0);
    }
  }

  /* ---- All inputs ---- */

  /** What the chain of helpers has of the block: the object, or nothing. */
  ghost predicate HasObject(run: Run, last: nat, o: Word) {
    run.Running? ==> Local(last) in run.env ==> run.env[Local(last)] == o
  }

  lemma ObjectComesOut(t: Tree, s: Setting, w: Wide, o: Word, i: nat)
    requires Adverse(t, s, w) && Prepared(s) && HoldsWide(s, w, i) && Loaded(w.base) in s.env
    requires s.order[i].last < Size(t) && !IsInteger(o)
    ensures HasObject(Chain(Disturbed(s, w.base, o), s.order[i].last + 1), s.order[i].last, o)
  {
    BlockKeepsToItself(s, i);
    ObjectAtEnd(t, s, w, o, s.order[i], s.order[i].last + 1);
  }

  lemma ObjectAtEnd(t: Tree, s: Setting, w: Wide, o: Word, b: Selected, n: nat)
    requires Adverse(t, s, w) && UsedOnce(s.bb, s.counts) && Sound(s.bb, b) && b.first <= w.k <= b.last < Size(t)
    requires Loaded(w.base) in s.env && !IsInteger(o) && n == b.last + 1
    ensures HasObject(Chain(Disturbed(s, w.base, o), n), b.last, o)
  {
    ObjectFlows(t, s, w, o, b);
    ChainRanBefore(s, n, |s.bb|);
    Lockstep(s, w.base, o, n, Chain(s, n).env);
  }

  /** That is not the integer that the fast path has left. */
  lemma ObjectIsNoInteger(s: Setting, b: Selected, o: Word, chain: Run, r: Env, k: nat)
    requires b in s.order && b.last < k && !IsInteger(o) && HasObject(chain, b.last, o)
    requires Join(b.last) in r && IsInteger(r[Join(b.last)])
    ensures !RunsAgree(s, chain, Running(r), k)
  {
  }

  lemma EarlierAndThisFit(s: Setting, i: nat, k: nat)
    requires Listed(s) && i < |s.order| && BlocksFit(s, s.order[i].first) && FitsAt(s, i) && k == s.order[i].last + 1
    ensures BlocksFit(s, k)
  {
    forall j | 0 <= j < |s.order| && s.order[j].last < k ensures FitsAt(s, j) {
      assert i < j ==> Apart(s.order[i], s.order[j]);
      assert j < i ==> Apart(s.order[j], s.order[i]);
    }
  }

  lemma NotKeepingUp(s: Setting, i: nat, k: nat)
    requires Listed(s) && i < |s.order| && k == s.order[i].last + 1 && BlocksFit(s, k) && !InStepAt(s, k)
    ensures !KeepsUp(s)
  {
    assert !KeepsUpAt(s, i);
  }

  /** An object with the number of the left operand of the wide operator. */
  lemma StandIn(t: Tree, s: Setting, w: Wide, n: nat) returns (o: Word)
    requires Adverse(t, s, w) && Middle(w) <= n <= |s.bb|
    ensures Tag(o) == 0 && !IsInteger(o) && Chain(s, n).Running? && Local(Middle(w) - 1) in Chain(s, n).env
    ensures Shr3(o) == Shr3(Chain(s, n).env[Local(Middle(w) - 1)])
  {
    LeftIsThere(t, s, w, n);
    o := Retag(false, Chain(s, n).env[Local(Middle(w) - 1)]);
    RetagKeepsNumber(false, Chain(s, n).env[Local(Middle(w) - 1)]);
  }

  lemma LeftIsThere(t: Tree, s: Setting, w: Wide, n: nat)
    requires Adverse(t, s, w) && Middle(w) <= n <= |s.bb|
    ensures Chain(s, n).Running? && Middle(w) > 0 && Local(Middle(w) - 1) in Chain(s, n).env
  {
    ChainRanBefore(s, n, |s.bb|);
    IntegersStay(s, n, Chain(s, n).env);
    HeadIsTainted(s.bb, w.left, w.base);
    assert IsArith(s.bb, Middle(w) - 1);
  }

  lemma Stage(t: Tree, s: Setting, w: Wide, i: nat, o: Word) returns (e: Before)
    requires Adverse(t, s, w) && Prepared(s) && Listed(s) && HoldsWide(s, w, i)
    requires Tag(o) == 0 && Chain(s, s.order[i].first).Running?
    requires var c := Chain(s, s.order[i].first).env;
             Local(Middle(w) - 1) in c && Shr3(o) == Shr3(c[Local(Middle(w) - 1)])
    ensures Staged(t, s, w, o, i, e)
    ensures BlocksFit(Disturbed(s, w.base, o), s.order[i].first)
  {
    e := StateBefore(t, s, w, o, i);
  }

  lemma FitsThrough(s: Setting, i: nat, block: Block, r: Env, k: nat)
    requires Listed(s) && i < |s.order| && IsRun(s.code, s.order[i]) && k == s.order[i].last + 1
    requires block == BlockOf(s.code, s.order[i]) && WellFormed(block, r) && NoOverflow(block, r)
    requires Rewrite(s, s.order[i].first) == Running(r) && BlocksFit(s, s.order[i].first)
    ensures BlocksFit(s, k)
  {
    FastPathFits(s, i, block, r);
    EarlierAndThisFit(s, i, k);
  }

  /** The chain has the object, or nothing, and the rewritten code an integer. */
  lemma FastPathIsOutOfStep(s: Setting, o: Word, i: nat, block: Block, r: Env, b: Selected, chain: Run)
    requires Listed(s) && i < |s.order| && b == s.order[i] && IsRun(s.code, b)
    requires block == BlockOf(s.code, b) && WellFormed(block, r) && NoOverflow(block, r) && !IsInteger(o)
    requires Computes(s.regions[i].fast, s.regions[i].result, block)
    requires s.regions[i].guard <= r.Keys && Guard(s.regions[i].guard, r)
    requires Rewrite(s, b.first) == Running(r) && HasObject(chain, b.last, o)
    ensures !RunsAgree(s, chain, Rewrite(s, b.last + 1), b.last + 1)
  {
    var r' := FastPathLeavesInteger(s, i, block, r, b.last);
    ObjectIsNoInteger(s, b, o, chain, r', b.last + 1);
  }

  lemma FastPathFallsBehind(s: Setting, o: Word, i: nat, block: Block, r: Env, b: Selected)
    requires Listed(s) && i < |s.order| && b == s.order[i] && IsRun(s.code, b)
    requires block == BlockOf(s.code, b) && WellFormed(block, r) && NoOverflow(block, r) && !IsInteger(o)
    requires Computes(s.regions[i].fast, s.regions[i].result, block)
    requires s.regions[i].guard <= r.Keys && Guard(s.regions[i].guard, r)
    requires Rewrite(s, b.first) == Running(r) && BlocksFit(s, b.first) && HasObject(Chain(s, b.last + 1), b.last, o)
    ensures !KeepsUp(s)
  {
    FitsThrough(s, i, block, r, b.last + 1);
    FastPathIsOutOfStep(s, o, i, block, r, b, Chain(s, b.last + 1));
    NotKeepingUp(s, i, b.last + 1);
  }

  lemma StagedFallsBehind(t: Tree, s: Setting, w: Wide, o: Word, i: nat, e: Before, d: Setting, b: Selected)
    requires Staged(t, s, w, o, i, e) && !IsInteger(o) && Loaded(w.base) in s.env && d == Disturbed(s, w.base, o)
    requires BlocksFit(d, b.first) && b == s.order[i]
    ensures !KeepsUp(d)
  {
    CodeIsRun(s, i);
    var block := BlockOf(s.code, b);
    StagedObject(t, s, w, o, i, e, d, b.last);
    GuardPasses(t, s, w, o, i, e);
    BlockFits(t, s, w, o, i, e, block);
    RegionComputes(s, i);
    FastPathFallsBehind(d, o, i, block, e.r, b);
  }

  lemma StagedObject(t: Tree, s: Setting, w: Wide, o: Word, i: nat, e: Before, d: Setting, last: nat)
    requires Staged(t, s, w, o, i, e) && !IsInteger(o) && Loaded(w.base) in s.env && d == Disturbed(s, w.base, o)
    requires last == s.order[i].last
    ensures last < |d.code| && i < |d.regions| && d.regions[i].block.last == last
    ensures HasObject(Chain(d, last + 1), last, o)
  {
    LastIsInTree(t, s, w, i);
    ObjectComesOut(t, s, w, o, i);
  }

  /** A tree with a wide operator that begins with a variable: with an object there, the helpers are left behind. */
  lemma WideTreeFallsBehind(t: Tree, s: Setting, w: Wide) returns (d: Setting)
    requires Adverse(t, s, w)
    ensures TreeSetting(t, d) && d == s.(call := d.call, env := d.env) && !KeepsUp(d)
  {
    var i := WideOperatorIsRecorded(t, s, w);
    var o := StandIn(t, s, w, s.order[i].first);
    d := Disturbed(s, w.base, o);
    DisturbedTree(t, s, w, o);
    var e := Stage(t, s, w, i, o);
    StagedFallsBehind(t, s, w, o, i, e, d, s.order[i]);
  }

  /** Integers on which the helpers compute the tree. */
  ghost predicate HasIntegerValue(t: Tree, s: Setting) {
    TreeSetting(t, s) && AllIntegers(s.env) && ValueOf(s.call, t, 0, s.env).Fine?
  }

  /** The first block that is lowered too late reads an undefined value. */
  lemma OutOfOrderFallsBehind(t: Tree, s: Setting)
    requires HasIntegerValue(t, s) && !ConsumersFirst(s.bb, s.order)
    ensures !KeepsUp(s)
  {
    TreeIsPrepared(t, s);
    TreeIsPlaced(t);
    SettingIsListed(s);
    ChainEndsWithValue(t, s);
    var i := FirstTooLate(s);
    assert !IsArith(s.bb, Size(t));
    TreeIsClosed(t, s);
    IntegersAreSafe(s, s.order[i].first);
    TooLateFallsBehind(s, i);
  }

  lemma TooLateFallsBehind(s: Setting, i: nat)
    requires Prepared(s) && Listed(s) && i < |s.order| && !LoweredInTime(s.bb, s.order, i)
    requires SafeBefore(s, s.order[i].first) && Chain(s, |s.bb|).Running?
    ensures !KeepsUp(s)
  {
    var k := s.order[i].last + 1;
    RunsUpTo(s, i, s.order[i].first);
    TooLateIsUndefined(s, i, k);
    StoppedFallsBehind(s, i, k);
  }

  lemma RunsUpTo(s: Setting, i: nat, n: nat)
    requires Prepared(s) && Listed(s) && i < |s.order| && n == s.order[i].first
    requires SafeBefore(s, n) && Chain(s, |s.bb|).Running?
    ensures BlocksFit(s, n) && Rewrite(s, n).Running?
  {
    BlockEndIsBetween(s, i);
    ChainRanBefore(s, n, |s.bb|);
    SafeRunIsInStep(s, n);
  }

  lemma StoppedFallsBehind(s: Setting, i: nat, k: nat)
    requires Listed(s) && i < |s.order| && k == s.order[i].last + 1 && BlocksFit(s, k)
    requires Chain(s, |s.bb|).Running? && !Rewrite(s, k).Running?
    ensures !KeepsUp(s)
  {
    ChainRanBefore(s, k, |s.bb|);
    NotKeepingUp(s, i, k);
  }

  lemma FirstTooLate(s: Setting) returns (i: nat)
    requires Listed(s) && !ConsumersFirst(s.bb, s.order)
    ensures i < |s.order| && !LoweredInTime(s.bb, s.order, i)
    ensures forall j: nat | j < |s.order| && s.order[j].last < s.order[i].first :: LoweredInTime(s.bb, s.order, j)
  {
    i :| i < |s.order| && !LoweredInTime(s.bb, s.order, i);
    i := FirstTooLateUpTo(s, i);
  }

  lemma {:induction false} FirstTooLateUpTo(s: Setting, k: nat) returns (i: nat)
    requires Listed(s) && k < |s.order| && !LoweredInTime(s.bb, s.order, k)
    ensures i < |s.order| && !LoweredInTime(s.bb, s.order, i)
    ensures forall j: nat | j < |s.order| && s.order[j].last < s.order[i].first :: LoweredInTime(s.bb, s.order, j)
    decreases s.order[k].first
  {
    i := k;
    if j: nat :| j < |s.order| && s.order[j].last < s.order[k].first && !LoweredInTime(s.bb, s.order, j) {
      i := FirstTooLateUpTo(s, j);
    }
  }

  /** A block that is lowered too late does not take its fast path, nor any other. */
  lemma TooLateIsUndefined(s: Setting, i: nat, k: nat)
    requires Prepared(s) && Listed(s) && i < |s.order| && !LoweredInTime(s.bb, s.order, i) && k == s.order[i].last + 1
    requires BlocksFit(s, s.order[i].first) && Rewrite(s, s.order[i].first).Running?
    ensures BlocksFit(s, k) && !Rewrite(s, k).Running?
  {
    var b := s.order[i];
    var j :| 0 <= j < i && Uses(s.bb, b.first, Local(s.order[j].last));
    Settle(s);
    assert b in s.order;
    FirstOperandIsTested(s.bb, s.counts, b, Local(s.order[j].last));
    RawResultIsTested(s, j, i);
    UndefinedStops(s, i, Local(s.order[j].last), k);
  }

  lemma UndefinedStops(s: Setting, i: nat, v: Value, k: nat)
    requires Listed(s) && i < |s.order| && k == s.order[i].last + 1 && v.Local? && v in s.regions[i].guard
    requires (forall u | u in s.env :: !u.Local?)
    requires BlocksFit(s, s.order[i].first) && Rewrite(s, s.order[i].first).Running?
    ensures BlocksFit(s, k) && !Rewrite(s, k).Running?
  {
    var r := Rewrite(s, s.order[i].first).env;
    NoResultIsKept(s, s.order[i].first);
    RegionIsRun(s, i, r);
    assert !Defined(s.code, s.regions[i], r);
    EarlierAndThisFit(s, i, k);
  }

  /**
   For every expression tree with integer literals that the helpers can compute on
   some integers, and every order of lowering: on all inputs the rewritten code keeps
   up with the helpers as long as the fast paths fit, exactly when no operator
   combines two operators of which the right one loads a variable and the left one
   begins with one, and no block is lowered before one that begins with its result.
   */
  lemma TreeIsRightExactlyWhen(t: Tree, s: Setting)
    requires HasIntegerValue(t, s)
    ensures (forall d: Setting | TreeSetting(t, d) && d == s.(call := d.call, env := d.env) :: KeepsUp(d))
            <==> Tame(t) && ConsumersFirst(s.bb, s.order)
  {
    if !ConsumersFirst(s.bb, s.order) {
      OutOfOrderFallsBehind(t, s);
      assert s == s.(call := s.call, env := s.env);
    } else if Tame(t) {
      forall d: Setting | TreeSetting(t, d) && d == s.(call := d.call, env := d.env) ensures KeepsUp(d) {
        TameTreeKeepsUp(t, d);
      }
    } else {
      TreeIsPlaced(t);
      ChainEndsWithValue(t, s);
      assert !IsArith(s.bb, Size(t));
      TreeIsClosed(t, s);
      var w := InnermostWide(s.bb, t, 0);
      var d := WideTreeFallsBehind(t, s, w);
    }
  }
}
