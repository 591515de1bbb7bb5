/** For which trees and in which orders of lowering every guard tests what its block takes. */
module LoweringOrders {
  import opened Tagged
  import opened Ast
  import opened ArithmeticBlocks
  import opened ExpressionTrees
  import opened FastPath
  import opened SelectedBlocks
  import opened Rewriting

  lemma TreeHasNoJoins(t: Tree)
    ensures NoJoins(TreeBlock(t))
  {
    TreeIsPlaced(t);
    forall k: nat, v | Uses(TreeBlock(t), k, v) ensures !v.Join? {
      TreeOperands(TreeBlock(t), t, 0, k);
    }
  }

  /**
   Lowering the blocks of a tree in some order, every guard tests exactly what its
   block takes at that moment, exactly when the tree is narrow and no block is
   lowered before one that begins with its result.
   */
  lemma TreeGuardsFollowExactlyWhen(t: Tree, counts: Counts, order: seq<Selected>)
    requires TreeCounts(t, counts) && LoweringOrder(TreeBlock(t), counts, order)
    ensures AllTestWhatTheyTake(TreeBlock(t), order) <==> Narrow(t) && ConsumersFirst(TreeBlock(t), order)
  {
    var bb := TreeBlock(t);
    TreeIsUsedOnce(t, counts);
    TreeHasNoJoins(t);
    GuardsFollowExactlyWhen(bb, counts, order);
    OrderIsSeparate(bb, counts, order);
    if Narrow(t) {
      forall b, v | b in order ensures !ForeignResult(bb, counts, b, v) {
        NarrowIsCovered(t, counts, b, v);
      }
    } else {
      var b, v := WideIsNotCovered(t, counts);
      assert b in order;
    }
  }

  /* ---- Code order and its reverse ---- */

  ghost predicate Ascending(blocks: seq<Selected>) {
    forall i, j | 0 <= i < j < |blocks| :: blocks[i].last < blocks[j].last
  }

  lemma AscendingAppend(blocks: seq<Selected>, b: Selected)
    requires Ascending(blocks) && forall a | a in blocks :: a.last < b.last
    ensures Ascending(blocks + [b])
  {
    forall i, j | 0 <= i < j < |blocks| + 1 ensures (blocks + [b])[i].last < (blocks + [b])[j].last {
      assert blocks[i] in blocks;
    }
  }

  /** The scan records blocks in the order of the code. */
  lemma {:induction false} BlocksAscend(bb: BasicBlock, counts: Counts, n: nat, s: Scan)
    requires UsedOnce(bb, counts) && n <= |bb| && s == ScanTo(bb, counts, n)
    ensures s.Scan? && Ascending(s.blocks)
    decreases n
  {
    ScanKeepsInvariant(bb, counts, n, s);
    if n > 0 {
      var before := ScanTo(bb, counts, n - 1);
      BlocksAscend(bb, counts, n - 1, before);
      ScanKeepsInvariant(bb, counts, n - 1, before);
      BlockAddedLast(bb, counts, before, n - 1, s);
      if s.blocks != before.blocks {
        AscendingAppend(before.blocks, s.blocks[|before.blocks|]);
      }
    }
  }

  lemma BlockAddedLast(bb: BasicBlock, counts: Counts, s: Scan, n: nat, s': Scan)
    requires n < |bb| && s.Scan? && s' == ScanStep(bb, s, n) && s'.Scan?
    ensures s'.blocks == s.blocks || exists b :: s'.blocks == s.blocks + [b] && b.last == n
  {
  }

  lemma CodeOrder(bb: BasicBlock, counts: Counts) returns (order: seq<Selected>)
    requires UsedOnce(bb, counts)
    ensures LoweringOrder(bb, counts, order)
    ensures Ascending(order)
  {
    var s := ScanTo(bb, counts, |bb|);
    BlocksAscend(bb, counts, |bb|, s);
    order := s.blocks;
  }

  lemma ReverseOrder(bb: BasicBlock, counts: Counts) returns (order: seq<Selected>)
    requires UsedOnce(bb, counts)
    ensures LoweringOrder(bb, counts, order)
    ensures forall i, j | 0 <= i < j < |order| :: order[j].last < order[i].last
  {
    var blocks := CodeOrder(bb, counts);
    order := seq(|blocks|, i requires 0 <= i < |blocks| => blocks[|blocks| - 1 - i]);
    forall b ensures b in order <==> b in blocks {
      if b in blocks {
        var i :| 0 <= i < |blocks| && blocks[i] == b;
        assert order[|blocks| - 1 - i] == b;
      }
    }
  }

  lemma LastFirstIsConsumersFirst(bb: BasicBlock, counts: Counts, order: seq<Selected>)
    requires UsedOnce(bb, counts) && LoweringOrder(bb, counts, order)
    requires forall i, j | 0 <= i < j < |order| :: order[j].last < order[i].last
    ensures ConsumersFirst(bb, order)
  {
    OrderIsSeparate(bb, counts, order);
    forall i: nat | i < |order| ensures LoweredInTime(bb, order, i) {
      assert order[i] in order;
    }
  }

  /** Some order is right exactly when the tree is narrow: lowering the last block first is. */
  lemma SomeOrderIsRightExactlyWhen(t: Tree, counts: Counts)
    requires TreeCounts(t, counts)
    ensures (exists order :: LoweringOrder(TreeBlock(t), counts, order) && AllTestWhatTheyTake(TreeBlock(t), order))
            <==> Narrow(t)
  {
    var bb := TreeBlock(t);
    TreeIsUsedOnce(t, counts);
    if Narrow(t) {
      var order := ReverseOrder(bb, counts);
      LastFirstIsConsumersFirst(bb, counts, order);
      TreeGuardsFollowExactlyWhen(t, counts, order);
    }
    if order :| LoweringOrder(bb, counts, order) && AllTestWhatTheyTake(bb, order) {
      TreeGuardsFollowExactlyWhen(t, counts, order);
    }
  }

  /* ---- Every order ---- */

  /** No operator has an operator on its left and a variable on its right. */
  predicate Solid(t: Tree) {
    match t
    case Node(_, l, r) => Solid(l) && Solid(r) && !(l.Node? && HasVariable(r))
    case _ => true
  }

  lemma {:induction false} SolidIsNarrow(t: Tree)
    requires Solid(t)
    ensures Narrow(t)
    decreases t
  {
    match t
    case Node(_, l, r) =>
      SolidIsNarrow(l);
      SolidIsNarrow(r);
    case _ =>
  }

  /** In a solid tree a result is used with nothing but calls in between. */
  lemma {:induction false} SolidOperandIsClose(bb: BasicBlock, t: Tree, base: nat, k: nat, i: nat)
    requires Placed(bb, t, base) && Solid(t) && base <= k < base + Size(t) && Uses(bb, k, Local(i))
    ensures k > 0 && IsArith(bb, k - 1)
    decreases t
  {
    match t
    case Variable =>
    case Literal(_) =>
    case Node(_, l, r) =>
      var m := base + Size(l);
      if k < m {
        SolidOperandIsClose(bb, l, base, k, i);
      } else if k < m + Size(r) {
        SolidOperandIsClose(bb, r, m, k, i);
      }
  }

  /** Any other narrow tree has an operator whose left operand is a result from before a load. */
  lemma {:induction false} DistantOperand(bb: BasicBlock, t: Tree, base: nat) returns (k: nat, i: nat)
    requires Placed(bb, t, base) && Narrow(t) && !Solid(t)
    ensures base <= i < k - 1 && k < base + Size(t) && IsArith(bb, i) && !IsArith(bb, k - 1)
    ensures Uses(bb, k, Local(i))
    decreases t
  {
    var Node(_, l, r) := t;
    var m := base + Size(l);
    if !Solid(l) {
      k, i := DistantOperand(bb, l, base);
    } else if !Solid(r) {
      k, i := DistantOperand(bb, r, m);
    } else {
      k, i := m + Size(r), m - 1;
    }
  }

  lemma SolidOperandDoesNotStart(bb: BasicBlock, t: Tree, base: nat, k: nat, i: nat)
    requires Placed(bb, t, base) && Solid(t) && base <= k < base + Size(t) && Uses(bb, k, Local(i))
    ensures !Starts(bb, k)
  {
    SolidIsNarrow(t);
    SolidOperandIsClose(bb, t, base, k, i);
    NarrowOperandIsReached(bb, t, base, k, i);
    ReachedDoesNotEnd(bb, i, k - 1, k);
  }

  lemma SolidIsConsumersFirst(t: Tree, counts: Counts, order: seq<Selected>)
    requires TreeCounts(t, counts) && Solid(t) && LoweringOrder(TreeBlock(t), counts, order)
    ensures ConsumersFirst(TreeBlock(t), order)
  {
    var bb := TreeBlock(t);
    TreeIsPlaced(t);
    TreeIsUsedOnce(t, counts);
    OrderIsSeparate(bb, counts, order);
    forall i: nat | i < |order| ensures LoweredInTime(bb, order, i) {
      assert order[i] in order;
      forall j | 0 <= j < i ensures !Uses(bb, order[i].first, Local(order[j].last)) {
        if Uses(bb, order[i].first, Local(order[j].last)) {
          SolidOperandDoesNotStart(bb, t, 0, order[i].first, order[j].last);
        }
      }
    }
  }

  lemma DistantBlocks(bb: BasicBlock, counts: Counts, order: seq<Selected>, k: nat, i: nat)
    requires UsedOnce(bb, counts) && LoweringOrder(bb, counts, order)
    requires i < k - 1 && IsArith(bb, i) && !IsArith(bb, k - 1) && Uses(bb, k, Local(i))
    ensures exists a, b :: a in order && b in order && a.last == i && b.first == k
  {
    var s := ScanTo(bb, counts, |bb|);
    var a := CallIsRecorded(bb, counts, s, i);
    var b := CallIsRecorded(bb, counts, s, k);
    assert Ends(bb, i) by {
      forall q: nat | q < |bb| ensures !(InRun(bb, i, q) && Uses(bb, q, Local(i))) {
        assert Local(i) in counts;
        assert Uses(bb, q, Local(i)) ==> q == k;
      }
    }
    assert a.last == i && b.first == k;
  }

  /** Lowering the blocks of any other tree in code order is not right. */
  lemma CodeOrderIsNotRight(t: Tree, counts: Counts) returns (order: seq<Selected>)
    requires TreeCounts(t, counts) && !Solid(t)
    ensures LoweringOrder(TreeBlock(t), counts, order) && !AllTestWhatTheyTake(TreeBlock(t), order)
  {
    var bb := TreeBlock(t);
    TreeIsUsedOnce(t, counts);
    order := CodeOrder(bb, counts);
    TreeGuardsFollowExactlyWhen(t, counts, order);
    if Narrow(t) {
      TreeIsPlaced(t);
      var k, i := DistantOperand(bb, t, 0);
      DistantBlocks(bb, counts, order, k, i);
      OrderIsSeparate(bb, counts, order);
      LaterBlockBeginsWith(bb, order, k, i);
    }
  }

  lemma LaterBlockBeginsWith(bb: BasicBlock, order: seq<Selected>, k: nat, i: nat)
    requires Ascending(order) && Separate(bb, order) && i < k && Uses(bb, k, Local(i))
    requires exists a, b :: a in order && b in order && a.last == i && b.first == k
    ensures !ConsumersFirst(bb, order)
  {
    var a, b :| a in order && b in order && a.last == i && b.first == k;
    var x, y :| 0 <= x < |order| && 0 <= y < |order| && order[x] == a && order[y] == b;
    assert IsRun(bb, b);
    assert a.last < b.last;
    assert x < y && !LoweredInTime(bb, order, y);
  }

  /** Every order is right exactly when no operator has an operator on its left and a variable on its right. */
  lemma EveryOrderIsRightExactlyWhen(t: Tree, counts: Counts)
    requires TreeCounts(t, counts)
    ensures (forall order | LoweringOrder(TreeBlock(t), counts, order) :: AllTestWhatTheyTake(TreeBlock(t), order))
            <==> Solid(t)
  {
    if Solid(t) {
      SolidIsNarrow(t);
      forall order | LoweringOrder(TreeBlock(t), counts, order) ensures AllTestWhatTheyTake(TreeBlock(t), order) {
        SolidIsConsumersFirst(t, counts, order);
        TreeGuardsFollowExactlyWhen(t, counts, order);
      }
    } else {
      var order := CodeOrderIsNotRight(t, counts);
    }
  }
}
