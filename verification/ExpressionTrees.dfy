/**
 The code of expression trees over variables and number literals: on which trees
 the selected blocks are sound, and on which the guard tests all it needs to.
 */
module ExpressionTrees {
  import opened Tagged
  import opened Ast
  import opened ArithmeticBlocks

  datatype Tree = Variable | Literal(w: Word) | Node(op: ArithOp, left: Tree, right: Tree)

  /** A variable is a load, a literal is no instruction, an operator is a call. */
  function Size(t: Tree): nat {
    match t
    case Variable => 1
    case Literal(_) => 0
    case Node(_, l, r) => Size(l) + Size(r) + 1
  }

  /** The value of a tree compiled at `base`. */
  function Root(t: Tree, base: nat): Value {
    match t
    case Variable => Loaded(base)
    case Literal(w) => Const(w)
    case Node(_, l, r) => Local(base + Size(l) + Size(r))
  }

  /** Postorder compilation: left operand, right operand, call. */
  function EmitTree(t: Tree, base: nat): (code: BasicBlock)
    ensures |code| == Size(t)
  {
    match t
    case Variable => [Other([])]
    case Literal(_) => []
    case Node(op, l, r) =>
      EmitTree(l, base) + EmitTree(r, base + Size(l)) + [Arith(op, Root(l, base), Root(r, base + Size(l)))]
  }

  /** The code of a tree, compiled at `base`, stands in the basic block. */
  predicate Placed(bb: BasicBlock, t: Tree, base: nat) {
    base + Size(t) <= |bb| &&
    match t
    case Variable => bb[base].Other?
    case Literal(_) => true
    case Node(op, l, r) =>
      && Placed(bb, l, base) && Placed(bb, r, base + Size(l))
      && bb[base + Size(l) + Size(r)] == Arith(op, Root(l, base), Root(r, base + Size(l)))
  }

  /** The code stands in the basic block from `base` on. */
  predicate CodeAt(bb: BasicBlock, base: nat, code: BasicBlock) {
    base + |code| <= |bb| && forall k: nat | k < |code| :: bb[base + k] == code[k]
  }

  lemma CodeAtSplit(bb: BasicBlock, base: nat, a: BasicBlock, b: BasicBlock)
    requires CodeAt(bb, base, a + b)
    ensures CodeAt(bb, base, a) && CodeAt(bb, base + |a|, b)
  {
    forall k: nat | k < |a| ensures bb[base + k] == a[k] {
      assert (a + b)[k] == a[k];
    }
    forall k: nat | k < |b| ensures bb[base + |a| + k] == b[k] {
      assert (a + b)[|a| + k] == b[k];
    }
  }

  lemma ThreeParts(bb: BasicBlock, base: nat, left: BasicBlock, right: BasicBlock, call: Inst)
    requires CodeAt(bb, base, left + right + [call])
    ensures CodeAt(bb, base, left) && CodeAt(bb, base + |left|, right)
    ensures base + |left| + |right| < |bb| && bb[base + |left| + |right|] == call
  {
    CodeAtSplit(bb, base, left + right, [call]);
    CodeAtSplit(bb, base, left, right);
    assert bb[base + |left + right| + 0] == [call][0];
  }

  lemma {:induction false} EmittedIsPlaced(bb: BasicBlock, t: Tree, base: nat)
    requires CodeAt(bb, base, EmitTree(t, base))
    ensures Placed(bb, t, base)
    decreases t
  {
    match t
    case Variable => assert bb[base + 0] == EmitTree(t, base)[0];
    case Literal(_) =>
    case Node(op, l, r) =>
      var m := base + Size(l);
      ThreeParts(bb, base, EmitTree(l, base), EmitTree(r, m), Arith(op, Root(l, base), Root(r, m)));
      EmittedIsPlaced(bb, l, base);
      EmittedIsPlaced(bb, r, m);
  }

  /** The operands of a call are plain leaves or earlier results of the tree. */
  lemma {:induction false} TreeOperands(bb: BasicBlock, t: Tree, base: nat, q: nat)
    requires Placed(bb, t, base) && base <= q < base + Size(t)
    ensures forall v | Uses(bb, q, v) :: v.Loaded? || v.Const? || (v.Local? && base <= v.index < q)
    ensures forall v | Uses(bb, q, v) && v.Local? :: Occurrences(bb[q], v) == 1
    decreases t
  {
    match t
    case Variable =>
    case Literal(_) =>
    case Node(_, l, r) =>
      var m := base + Size(l);
      if q < m {
        TreeOperands(bb, l, base, q);
      } else if q < m + Size(r) {
        TreeOperands(bb, r, m, q);
      }
  }

  /** Two calls of a tree never use the same result. */
  lemma {:induction false} TreeUsesOnce(bb: BasicBlock, t: Tree, base: nat, q: nat, q': nat, i: nat)
    requires Placed(bb, t, base) && base <= q < q' < base + Size(t)
    ensures !(Uses(bb, q, Local(i)) && Uses(bb, q', Local(i)))
    decreases t
  {
    match t
    case Variable =>
    case Literal(_) =>
    case Node(_, l, r) =>
      var m := base + Size(l);
      if q' < m {
        TreeUsesOnce(bb, l, base, q, q', i);
      } else if m <= q && q' < m + Size(r) {
        TreeUsesOnce(bb, r, m, q, q', i);
      } else if q' < m + Size(r) {
        TreeOperands(bb, l, base, q);
        TreeOperands(bb, r, m, q');
      } else if q < m {
        TreeOperands(bb, l, base, q);
      } else {
        TreeOperands(bb, r, m, q);
      }
  }

  /** Every result of a tree but the root's is used before the root is done. */
  lemma {:induction false} TreeUsesAll(bb: BasicBlock, t: Tree, base: nat, k: nat)
    requires Placed(bb, t, base) && base <= k < base + Size(t) - 1 && IsArith(bb, k)
    ensures UsedBy(bb, k, base + Size(t) - 1)
    decreases t
  {
    match t
    case Variable =>
    case Literal(_) =>
    case Node(_, l, r) =>
      var m := base + Size(l);
      if k + 1 < m {
        TreeUsesAll(bb, l, base, k);
        UsedEarlier(bb, k, m - 1, base + Size(t) - 1);
      } else if m <= k && k + 1 < m + Size(r) {
        TreeUsesAll(bb, r, m, k);
        UsedEarlier(bb, k, m + Size(r) - 1, base + Size(t) - 1);
      } else {
        assert Uses(bb, m + Size(r), Local(k));
      }
  }

  lemma UsedEarlier(bb: BasicBlock, k: nat, last: nat, last': nat)
    requires UsedBy(bb, k, last) && last <= last'
    ensures UsedBy(bb, k, last')
  {
  }

  /** Within a tree, results are consumed in stack order. */
  lemma {:induction false} TreeIsStackOrdered(bb: BasicBlock, t: Tree, base: nat, i: nat, j: nat, q: nat)
    requires Placed(bb, t, base) && IsArith(bb, j)
    requires base <= i < j < q < base + Size(t) && Uses(bb, q, Local(i))
    ensures UsedBy(bb, j, q)
    decreases t
  {
    match t
    case Variable =>
    case Literal(_) =>
    case Node(_, l, r) =>
      var m := base + Size(l);
      if q < m {
        TreeIsStackOrdered(bb, l, base, i, j, q);
      } else if q == m + Size(r) {
        TreeUsesAll(bb, t, base, j);
      } else {
        TreeOperands(bb, r, m, q);
        TreeIsStackOrdered(bb, r, m, i, j, q);
      }
  }

  /* ---- A basic block that holds one tree ---- */

  function TreeBlock(t: Tree): BasicBlock {
    EmitTree(t, 0) + [Other([Root(t, 0)])]
  }

  /** The use counts of a function that holds one expression tree: one for every call. */
  ghost predicate TreeCounts(t: Tree, counts: Counts) {
    && (forall v | v in counts :: v.Local? && counts[v] == 1)
    && (forall i: nat | IsArith(TreeBlock(t), i) :: Local(i) in counts)
  }

  lemma TreeIsPlaced(t: Tree)
    ensures Placed(TreeBlock(t), t, 0) && |TreeBlock(t)| == Size(t) + 1 && TreeBlock(t)[Size(t)].Other?
  {
    assert CodeAt(TreeBlock(t), 0, EmitTree(t, 0));
    EmittedIsPlaced(TreeBlock(t), t, 0);
  }

  lemma TreeIsUsedOnce(t: Tree, counts: Counts)
    requires TreeCounts(t, counts)
    ensures UsedOnce(TreeBlock(t), counts)
  {
    var bb := TreeBlock(t);
    TreeIsPlaced(t);
    forall q: nat, v | Uses(bb, q, v)
      ensures !v.Argument? && (v.Local? ==> v.index < q)
      ensures v in counts ==>
                counts[v] == 1 && Occurrences(bb[q], v) == 1 && forall q': nat | Uses(bb, q', v) :: q' == q
    {
      TreeOperands(bb, t, 0, q);
      if v in counts {
        forall q': nat | Uses(bb, q', v) ensures q' == q {
          if q' < q {
            TreeUsesOnce(bb, t, 0, q', q, v.index);
          } else if q < q' {
            TreeUsesOnce(bb, t, 0, q, q', v.index);
          }
        }
      }
    }
  }

  lemma TreeBlockIsStackOrdered(t: Tree)
    ensures StackOrdered(TreeBlock(t))
  {
    var bb := TreeBlock(t);
    TreeIsPlaced(t);
    forall i: nat, j: nat, q: nat | i < j < q && IsArith(bb, i) && IsArith(bb, j) && Uses(bb, q, Local(i))
      ensures UsedBy(bb, j, q)
    {
      TreeIsStackOrdered(bb, t, 0, i, j, q);
    }
  }

  /** What postorder compilation emits for a tree is used once and in stack order: every selected block is sound. */
  lemma SelectionIsSoundOnTrees(t: Tree, counts: Counts)
    requires TreeCounts(t, counts)
    ensures var bb := TreeBlock(t);
            var s := ScanTo(bb, counts, |bb|);
            s.Scan? && forall b | b in s.blocks :: Sound(bb, b)
  {
    TreeIsUsedOnce(t, counts);
    TreeBlockIsStackOrdered(t);
    StackOrderedIsSound(TreeBlock(t), counts);
  }

  /* ---- Where the guard covers the block ---- */

  predicate HasVariable(t: Tree) {
    match t
    case Variable => true
    case Literal(_) => false
    case Node(_, l, r) => HasVariable(l) || HasVariable(r)
  }

  /** No operator combines two operators of which the right one loads a variable. */
  predicate Narrow(t: Tree) {
    match t
    case Node(_, l, r) => Narrow(l) && Narrow(r) && !(l.Node? && r.Node? && HasVariable(r))
    case _ => true
  }

  lemma {:induction false} LiteralsAreCalls(bb: BasicBlock, t: Tree, base: nat, j: nat)
    requires Placed(bb, t, base) && !HasVariable(t) && base <= j < base + Size(t)
    ensures IsArith(bb, j)
    decreases t
  {
    match t
    case Literal(_) =>
    case Node(_, l, r) =>
      var m := base + Size(l);
      if j < m {
        LiteralsAreCalls(bb, l, base, j);
      } else if j < m + Size(r) {
        LiteralsAreCalls(bb, r, m, j);
      }
  }

  lemma {:induction false} VariableIsLoaded(bb: BasicBlock, t: Tree, base: nat) returns (q: nat)
    requires Placed(bb, t, base) && HasVariable(t)
    ensures base <= q < base + Size(t) && !IsArith(bb, q)
    decreases t
  {
    match t
    case Variable => q := base;
    case Node(_, l, r) =>
      if HasVariable(l) {
        q := VariableIsLoaded(bb, l, base);
      } else {
        q := VariableIsLoaded(bb, r, base + Size(l));
      }
  }

  /** From an operand to its use only calls whose results are used up, or a load directly before the use. */
  predicate Reached(bb: BasicBlock, i: nat, k: nat) {
    i < k && (!IsArith(bb, k - 1) || forall j: nat | i <= j < k :: IsArith(bb, j) && UsedByCall(bb, j, k))
  }

  predicate UsedByCall(bb: BasicBlock, j: nat, k: nat) {
    exists q: nat | j < q <= k :: Uses(bb, q, Local(j))
  }

  lemma {:induction false} NarrowOperandIsReached(bb: BasicBlock, t: Tree, base: nat, k: nat, i: nat)
    requires Placed(bb, t, base) && Narrow(t) && base <= k < base + Size(t) && Uses(bb, k, Local(i))
    ensures Reached(bb, i, k)
    decreases t
  {
    match t
    case Variable =>
    case Literal(_) =>
    case Node(_, l, r) =>
      var m := base + Size(l);
      if k < m {
        NarrowOperandIsReached(bb, l, base, k, i);
      } else if k < m + Size(r) {
        NarrowOperandIsReached(bb, r, m, k, i);
      } else if IsArith(bb, k - 1) {
        forall j: nat | i <= j < k ensures IsArith(bb, j) && UsedByCall(bb, j, k) {
          if m <= j && i < m {
            LiteralsAreCalls(bb, r, m, j);
          }
          if j == i {
            assert Uses(bb, k, Local(j));
          } else {
            TreeUsesAll(bb, t, base, j);
          }
        }
      }
  }

  /** A wide operator uses a result from before a load, and not as the first call of its block. */
  lemma {:induction false} WideOperator(bb: BasicBlock, t: Tree, base: nat) returns (k: nat, i: nat, q: nat)
    requires Placed(bb, t, base) && !Narrow(t)
    ensures base <= i < q < k - 1 && k < base + Size(t) && !IsArith(bb, q)
    ensures Uses(bb, k, Local(i)) && IsArith(bb, i) && IsArith(bb, k - 1) && Uses(bb, k, Local(k - 1))
    decreases t
  {
    var Node(_, l, r) := t;
    var m := base + Size(l);
    if !Narrow(l) {
      k, i, q := WideOperator(bb, l, base);
    } else if !Narrow(r) {
      k, i, q := WideOperator(bb, r, m);
    } else {
      k, i := m + Size(r), m - 1;
      q := VariableIsLoaded(bb, r, m);
    }
  }

  lemma ReachedDoesNotEnd(bb: BasicBlock, i: nat, j: nat, k: nat)
    requires Reached(bb, i, k) && IsArith(bb, k - 1) && IsArith(bb, k) && i <= j < k
    ensures IsArith(bb, j) && !Ends(bb, j)
  {
    assert UsedByCall(bb, j, k);
    var q: nat :| j < q <= k && Uses(bb, q, Local(j));
    forall x: nat | j <= x <= q ensures IsArith(bb, x) {
      assert x < k ==> IsArith(bb, x) && UsedByCall(bb, x, k);
    }
    assert InRun(bb, j, q);
  }

  lemma NarrowIsCovered(t: Tree, counts: Counts, b: Selected, v: Value)
    requires TreeCounts(t, counts) && Narrow(t) && Recorded(TreeBlock(t), counts, b)
    ensures !ForeignResult(TreeBlock(t), counts, b, v)
  {
    var bb := TreeBlock(t);
    TreeIsPlaced(t);
    if ForeignResult(bb, counts, b, v) {
      var k: nat :| b.first < k <= b.last && Uses(bb, k, v);
      NarrowOperandIsReached(bb, t, 0, k, v.index);
      assert IsArith(bb, k - 1);
      ReachedDoesNotEnd(bb, v.index, b.first - 1, k);
      assert false;
    }
  }

  lemma WideBlock(bb: BasicBlock, counts: Counts, b: Selected, k: nat, i: nat, q: nat)
    requires UsedOnce(bb, counts) && Recorded(bb, counts, b) && b.first <= k - 1 <= b.last
    requires i < q < k - 1 && !IsArith(bb, q) && IsArith(bb, i)
    requires Uses(bb, k, Local(i)) && IsArith(bb, k - 1) && Uses(bb, k, Local(k - 1))
    ensures ForeignResult(bb, counts, b, Local(i))
  {
    assert InRun(bb, k - 1, k) && UsedInRun(bb, k - 1);
    assert b.first > q;
  }

  lemma WideIsNotCovered(t: Tree, counts: Counts) returns (b: Selected, v: Value)
    requires TreeCounts(t, counts) && !Narrow(t)
    ensures var bb := TreeBlock(t);
            var s := ScanTo(bb, counts, |bb|);
            s.Scan? && b in s.blocks && ForeignResult(bb, counts, b, v)
  {
    var bb := TreeBlock(t);
    TreeIsPlaced(t);
    TreeIsUsedOnce(t, counts);
    var k, i, q := WideOperator(bb, t, 0);
    b := CallIsRecorded(bb, counts, ScanTo(bb, counts, |bb|), k - 1);
    v := Local(i);
    WideBlock(bb, counts, b, k, i, q);
  }

  /**
   The guard of every block selected in the code of a tree tests all that the
   block takes from outside exactly when the tree is narrow.
   */
  lemma GuardCoversTreeExactlyWhen(t: Tree, counts: Counts)
    requires TreeCounts(t, counts)
    ensures var bb := TreeBlock(t);
            var s := ScanTo(bb, counts, |bb|);
            s.Scan? && ((forall b | b in s.blocks :: Covers(bb, b)) <==> Narrow(t))
  {
    var bb := TreeBlock(t);
    TreeIsUsedOnce(t, counts);
    var s := ScanTo(bb, counts, |bb|);
    BlocksAreRecorded(bb, counts, s);
    if Narrow(t) {
      forall b | b in s.blocks ensures Covers(bb, b) {
        GuardCoversExactlyWhen(bb, counts, b);
        forall v ensures !ForeignResult(bb, counts, b, v) {
          NarrowIsCovered(t, counts, b, v);
        }
      }
    } else {
      var b, v := WideIsNotCovered(t, counts);
      GuardCoversExactlyWhen(bb, counts, b);
    }
  }

  /* ---- (x + y) + (z + w) ---- */

  const FOUR_VARIABLES := Node(Add, Node(Add, Variable, Variable), Node(Add, Variable, Variable))

  const FOUR_COUNTS: Counts := map[Local(2) := 1, Local(5) := 1, Local(6) := 1]

  lemma FourVariablesCode()
    ensures TreeBlock(FOUR_VARIABLES) == [
              Other([]), Other([]), Arith(Add, Loaded(0), Loaded(1)),
              Other([]), Other([]), Arith(Add, Loaded(3), Loaded(4)),
              Arith(Add, Local(2), Local(5)), Other([Local(6)])]
    ensures TreeCounts(FOUR_VARIABLES, FOUR_COUNTS) && !Narrow(FOUR_VARIABLES)
  {
    var sum := Node(Add, Variable, Variable);
    assert EmitTree(sum, 0) == [Other([]), Other([]), Arith(Add, Loaded(0), Loaded(1))];
    assert EmitTree(sum, 3) == [Other([]), Other([]), Arith(Add, Loaded(3), Loaded(4))];
    assert Size(sum) == 3;
    assert EmitTree(FOUR_VARIABLES, 0) == EmitTree(sum, 0) + EmitTree(sum, 3) + [Arith(Add, Local(2), Local(5))];
  }

  /** The pass joins the last two additions in one block and does not test the result of the first. */
  lemma FourVariablesAreNotCovered() returns (b: Selected)
    ensures var bb := TreeBlock(FOUR_VARIABLES);
            var s := ScanTo(bb, FOUR_COUNTS, |bb|);
            && s.Scan? && b in s.blocks && b == Selected(5, 6, {Loaded(3), Loaded(4)})
            && FromOutside(bb, b, Local(2)) && Local(2) !in b.args
  {
    var bb := TreeBlock(FOUR_VARIABLES);
    FourVariablesCode();
    TreeIsUsedOnce(FOUR_VARIABLES, FOUR_COUNTS);
    assert IsArith(bb, 5);
    b := CallIsRecorded(bb, FOUR_COUNTS, ScanTo(bb, FOUR_COUNTS, |bb|), 5);
    LastBlockOfFour(bb, b);
  }

  lemma LastBlockOfFour(bb: BasicBlock, b: Selected)
    requires |bb| == 8 && bb[2] == Arith(Add, Loaded(0), Loaded(1)) && bb[4].Other? && bb[7].Other?
    requires bb[5] == Arith(Add, Loaded(3), Loaded(4)) && bb[6] == Arith(Add, Local(2), Local(5))
    requires Recorded(bb, FOUR_COUNTS, b) && b.first <= 5 <= b.last
    ensures b == Selected(5, 6, {Loaded(3), Loaded(4)}) && FromOutside(bb, b, Local(2))
  {
    assert IsArith(bb, 5) && IsArith(bb, 6) && !IsArith(bb, 4) && !IsArith(bb, 7);
    assert InRun(bb, 5, 6) && Uses(bb, 6, Local(5)) && UsedInRun(bb, 5);
    LastOfRunEnds(bb, 6);
    assert b.first == 5 && b.last == 6;
    assert Uses(bb, 5, Loaded(3)) && Uses(bb, 5, Loaded(4)) && Uses(bb, 6, Local(2));
    forall v ensures v in b.args <==> v == Loaded(3) || v == Loaded(4) {
      assert v in b.args <==> Tested(bb, FOUR_COUNTS, 5, 7, v);
    }
  }
}
