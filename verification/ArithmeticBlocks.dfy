/**
 Selection of the runs of arithmetic calls that get a fast path: one pass over a
 basic block with use counts, and which of the recorded blocks keep all their
 values but the last to themselves.
 */
module ArithmeticBlocks {
  import opened Tagged
  import opened Ast

  /**
   An operand: the result of an instruction of this basic block, the phi node that
   replaces one, a call result from another block, any other instruction's result,
   a function argument, or a constant word.
   */
  datatype Value =
    | Local(index: nat) | Join(index: nat) | Foreign(k: nat) | Loaded(k: nat) | Argument(k: nat) | Const(w: Word)

  datatype Inst = Arith(op: ArithOp, l: Value, r: Value) | Other(uses: seq<Value>)

  type BasicBlock = seq<Inst>

  /** The remaining uses of every call result in the function. */
  type Counts = map<Value, int>

  /** A recorded block: its first call, the instruction after which it is split off, and the values to check. */
  datatype Selected = Selected(first: nat, last: nat, args: set<Value>)

  /** `NullOperator` is the null dereference on an operand that is no instruction. */
  datatype Scan =
    | Scan(start: Option<nat>, args: set<Value>, counts: Counts, blocks: seq<Selected>)
    | NullOperator

  function Occurrences(i: Inst, v: Value): nat {
    match i
    case Arith(_, l, r) => (if l == v then 1 else 0) + (if r == v then 1 else 0)
    case Other(_) => 0
  }

  /* ---- The pass ---- */

  /** Looking ahead over the run: whether uses of `v` are left when the run stops. */
  predicate LeftOver(bb: BasicBlock, v: Value, j: nat, required: int)
    decreases |bb| - j
  {
    if j >= |bb| then false
    else if bb[j].Arith? then LeftOver(bb, v, j + 1, required - Occurrences(bb[j], v))
    else required > 0
  }

  function CheckFirst(args: set<Value>, v: Value): set<Value> {
    if v.Const? then args else args + {v}
  }

  /** An operand of a later call of a block: a counted result loses a use, and ends the block if it has more. */
  datatype Taken = Taken(args: set<Value>, counts: Counts, end: bool) | NoOperator

  function TakeOperand(args: set<Value>, counts: Counts, end: bool, v: Value): Taken {
    if v in counts then Taken(args, counts[v := counts[v] - 1], end || counts[v] - 1 > 0)
    else if v.Argument? then NoOperator
    else if v.Const? then Taken(args, counts, end)
    else Taken(args + {v}, counts, end)
  }

  function TakeOperands(s: Scan, l: Value, r: Value): Taken
    requires s.Scan?
  {
    if s.start.None? then Taken(CheckFirst(CheckFirst(s.args, l), r), s.counts, false)
    else
      match TakeOperand(s.args, s.counts, false, l)
      case NoOperator => NoOperator
      case Taken(args, counts, end) => TakeOperand(args, counts, end, r)
  }

  function CountOf(counts: Counts, v: Value): int {
    if v in counts then counts[v] else 0
  }

  function ScanStep(bb: BasicBlock, s: Scan, i: nat): Scan
    requires i < |bb|
  {
    match s
    case NullOperator => NullOperator
    case Scan(start, args, counts, blocks) =>
      match bb[i]
      case Other(_) =>
        if start.Some? then Scan(None, {}, counts, blocks + [Selected(start.value, i, args)]) else s
      case Arith(_, l, r) =>
        match TakeOperands(s, l, r)
        case NoOperator => NullOperator
        case Taken(args', counts', end) =>
          var first := if start.Some? then start.value else i;
          if end || LeftOver(bb, Local(i), i, CountOf(counts', Local(i))) then
            Scan(None, {}, counts', blocks + [Selected(first, i, args')])
          else Scan(Some(first), args', counts', blocks)
  }

  function ScanTo(bb: BasicBlock, counts: Counts, n: nat): Scan
    requires n <= |bb|
  {
    if n == 0 then Scan(None, {}, counts, []) else ScanStep(bb, ScanTo(bb, counts, n - 1), n - 1)
  }

  lemma {:induction false} NullOperatorStays(bb: BasicBlock, counts: Counts, n: nat, m: nat)
    requires n <= m <= |bb| && ScanTo(bb, counts, n).NullOperator?
    ensures ScanTo(bb, counts, m).NullOperator?
    decreases m - n
  {
    if n < m {
      NullOperatorStays(bb, counts, n + 1, m);
    }
  }

  /** The selection loop over one basic block. */
  method SelectBlocks(bb: BasicBlock, counts: Counts) returns (s: Scan)
    ensures s == ScanTo(bb, counts, |bb|)
  {
    var start: Option<nat> := None;
    var args: set<Value> := {};
    var useCounts := counts;
    var blocks: seq<Selected> := [];
    var i := 0;
    while i < |bb|
      invariant 0 <= i <= |bb|
      invariant ScanTo(bb, counts, i) == Scan(start, args, useCounts, blocks)
    {
      ghost var before := Scan(start, args, useCounts, blocks);
      if bb[i].Arith? {
        var t := TakeOperands(Scan(start, args, useCounts, blocks), bb[i].l, bb[i].r);
        if t.NoOperator? {
          NullOperatorStays(bb, counts, i + 1, |bb|);
          return NullOperator;
        }
        var first := if start.Some? then start.value else i;
        args, useCounts := t.args, t.counts;
        var end := t.end;
        if !end {
          end := LookAhead(bb, i, CountOf(useCounts, Local(i)));
        }
        if end {
          blocks := blocks + [Selected(first, i, args)];
          start, args := None, {};
        } else {
          start := Some(first);
        }
      } else if start.Some? {
        blocks := blocks + [Selected(start.value, i, args)];
        start, args := None, {};
      }
      i := i + 1;
    }
    s := Scan(start, args, useCounts, blocks);
  }

  /** The inner loop: the uses of the result of call `i` that the rest of the run does not account for. */
  method LookAhead(bb: BasicBlock, i: nat, count: int) returns (left: bool)
    requires i < |bb|
    ensures left == LeftOver(bb, Local(i), i, count)
  {
    var required := count;
    var j := i;
    while j < |bb| && bb[j].Arith?
      invariant i <= j <= |bb|
      invariant LeftOver(bb, Local(i), i, count) == LeftOver(bb, Local(i), j, required)
    {
      required := required - Occurrences(bb[j], Local(i));
      j := j + 1;
    }
    left := j < |bb| && required > 0;
  }

  /* ---- Uses ---- */

  predicate IsArith(bb: BasicBlock, i: nat) {
    i < |bb| && bb[i].Arith?
  }

  predicate Uses(bb: BasicBlock, q: nat, v: Value) {
    IsArith(bb, q) && (bb[q].l == v || bb[q].r == v)
  }

  /** Call `q` is reached from call `i` over arithmetic calls only. */
  predicate InRun(bb: BasicBlock, i: nat, q: nat) {
    i < q < |bb| && forall k: nat | i <= k <= q :: IsArith(bb, k)
  }

  predicate UsedInRun(bb: BasicBlock, i: nat) {
    exists q: nat | q < |bb| :: InRun(bb, i, q) && Uses(bb, q, Local(i))
  }

  /** The result of call `i` is used after the run is over. */
  predicate Ends(bb: BasicBlock, i: nat) {
    IsArith(bb, i) && !UsedInRun(bb, i)
  }

  /**
   SSA code in which every call result that matters is used once: arithmetic
   results, and call results that are operands of arithmetic.
   */
  ghost predicate UsedOnce(bb: BasicBlock, counts: Counts) {
    && bb != [] && bb[|bb| - 1].Other?
    && (forall i: nat | IsArith(bb, i) :: Local(i) in counts && counts[Local(i)] == 1)
    && (forall q: nat, v {:trigger Uses(bb, q, v)} | Uses(bb, q, v) ::
          && !v.Argument?
          && (v.Local? ==> v.index < q)
          && (v in counts ==> counts[v] == 1 && Occurrences(bb[q], v) == 1
                              && forall q': nat | Uses(bb, q', v) :: q' == q))
  }

  /** A value is still wanted in the run although a later value of the run leaves it. */
  ghost predicate Straddles(bb: BasicBlock, i: nat, e: nat, q: nat) {
    i < e < q && InRun(bb, i, q) && Uses(bb, q, Local(i)) && Ends(bb, e)
  }

  ghost predicate NoStraddle(bb: BasicBlock) {
    forall i: nat, e: nat, q: nat :: !Straddles(bb, i, e, q)
  }

  /** The result of call `k` is used by an arithmetic call no later than `last`. */
  ghost predicate UsedBy(bb: BasicBlock, k: nat, last: nat) {
    exists q: nat | k < q <= last :: Uses(bb, q, Local(k))
  }

  /** Every value of the block but the last is used inside the block, and nowhere else. */
  ghost predicate Sound(bb: BasicBlock, b: Selected) {
    forall k: nat | b.first <= k < b.last :: UsedBy(bb, k, b.last)
  }

  /* ---- What a scan of such code records ---- */

  lemma {:induction false} LeftOverWithoutUse(bb: BasicBlock, v: Value, j: nat, required: int)
    requires bb != [] && bb[|bb| - 1].Other? && j < |bb|
    requires forall q: nat | j <= q && (q == j || InRun(bb, j, q)) :: !Uses(bb, q, v)
    ensures LeftOver(bb, v, j, required) == (required > 0)
    decreases |bb| - j
  {
    if bb[j].Arith? {
      assert !Uses(bb, j, v);
      forall q: nat | j + 1 <= q && (q == j + 1 || InRun(bb, j + 1, q)) ensures !Uses(bb, q, v) {
        if IsArith(bb, q) {
          assert InRun(bb, j, q);
        }
      }
      LeftOverWithoutUse(bb, v, j + 1, required);
    }
  }

  lemma {:induction false} LeftOverWithUse(bb: BasicBlock, v: Value, j: nat, q: nat)
    requires bb != [] && bb[|bb| - 1].Other? && j <= q < |bb|
    requires (q == j || InRun(bb, j, q)) && Uses(bb, q, v) && Occurrences(bb[q], v) == 1
    requires forall q': nat | Uses(bb, q', v) :: q' == q
    ensures !LeftOver(bb, v, j, 1)
    decreases q - j
  {
    if j == q {
      LeftOverWithoutUse(bb, v, j + 1, 0);
    } else {
      assert IsArith(bb, j) && IsArith(bb, j + 1) && !Uses(bb, j, v);
      LeftOverWithUse(bb, v, j + 1, q);
    }
  }

  /** With a single use, looking ahead decides whether that use is in the run. */
  lemma LookAheadDecides(bb: BasicBlock, counts: Counts, i: nat)
    requires UsedOnce(bb, counts) && IsArith(bb, i)
    ensures LeftOver(bb, Local(i), i, 1) == Ends(bb, i)
  {
    if UsedInRun(bb, i) {
      var q: nat :| q < |bb| && InRun(bb, i, q) && Uses(bb, q, Local(i));
      LeftOverWithUse(bb, Local(i), i, q);
    } else {
      forall q: nat | i <= q && (q == i || InRun(bb, i, q)) ensures !Uses(bb, q, Local(i)) {
      }
      LeftOverWithoutUse(bb, Local(i), i, 1);
    }
  }

  /** The counts of everything that calls from `n` on define or use are still untouched. */
  ghost predicate Pending(bb: BasicBlock, counts: Counts, now: Counts, n: nat) {
    && now.Keys == counts.Keys
    && (forall i: nat | n <= i && IsArith(bb, i) :: Local(i) in now && now[Local(i)] == 1)
    && (forall q: nat, v | n <= q && Uses(bb, q, v) && v in now :: now[v] == 1)
  }

  /**
   The operands the guard tests: every operand of the first call, and of later
   calls those that are not counted, constants left out.
   */
  ghost predicate Tested(bb: BasicBlock, counts: Counts, first: nat, last: nat, v: Value) {
    !v.Const? && exists k: nat | first <= k < last :: Uses(bb, k, v) && (k == first || v !in counts)
  }

  /** A block may begin here: nothing before this call is part of it. */
  ghost predicate Starts(bb: BasicBlock, first: nat) {
    first == 0 || !IsArith(bb, first - 1) || Ends(bb, first - 1)
  }

  /** The calls from `first` to before `n` are all of a run so far, and none of their values leaves it. */
  ghost predicate Collecting(bb: BasicBlock, first: nat, n: nat) {
    Starts(bb, first) && forall k: nat | first <= k < n :: IsArith(bb, k) && !Ends(bb, k)
  }

  /** A recorded block runs from where the last one ended to the first value that leaves the run. */
  ghost predicate Recorded(bb: BasicBlock, counts: Counts, b: Selected) {
    && b.first <= b.last && Ends(bb, b.last) && Collecting(bb, b.first, b.last)
    && (forall v :: v in b.args <==> Tested(bb, counts, b.first, b.last + 1, v))
  }

  /** Call `k` is in a recorded block, or in the one being collected. */
  ghost predicate Collected(s: Scan, k: nat)
    requires s.Scan?
  {
    (exists b | b in s.blocks :: b.first <= k <= b.last) || (s.start.Some? && s.start.value <= k)
  }

  ghost predicate ScanInvariant(bb: BasicBlock, counts: Counts, s: Scan, n: nat) {
    && s.Scan?
    && Pending(bb, counts, s.counts, n)
    && (s.start.None? ==> Starts(bb, n))
    && (s.start.Some? ==> s.start.value < n && Collecting(bb, s.start.value, n))
    && (forall v :: v in s.args <==> s.start.Some? && Tested(bb, counts, s.start.value, n, v))
    && (forall b | b in s.blocks :: b.last < n && Recorded(bb, counts, b))
    && (forall k: nat | k < n && IsArith(bb, k) :: Collected(s, k))
  }

  lemma OperandsKeepPending(bb: BasicBlock, counts: Counts, s: Scan, n: nat)
    requires UsedOnce(bb, counts) && s.Scan? && IsArith(bb, n) && Pending(bb, counts, s.counts, n)
    ensures var t := TakeOperands(s, bb[n].l, bb[n].r);
            && t.Taken? && !t.end && Pending(bb, counts, t.counts, n + 1)
            && CountOf(t.counts, Local(n)) == 1
  {
    var l, r := bb[n].l, bb[n].r;
    assert Uses(bb, n, l) && Uses(bb, n, r);
    assert l != Local(n) && r != Local(n);
    assert l in s.counts ==> Occurrences(bb[n], l) == 1;
  }

  /** What a call adds to the values to check. */
  lemma OperandsTested(bb: BasicBlock, counts: Counts, s: Scan, n: nat)
    requires UsedOnce(bb, counts) && s.Scan? && IsArith(bb, n) && s.counts.Keys == counts.Keys
    requires s.start.Some? ==> s.start.value < n
    requires forall v :: v in s.args <==> s.start.Some? && Tested(bb, counts, s.start.value, n, v)
    requires TakeOperands(s, bb[n].l, bb[n].r).Taken?
    ensures var first := if s.start.Some? then s.start.value else n;
            forall v :: v in TakeOperands(s, bb[n].l, bb[n].r).args <==> Tested(bb, counts, first, n + 1, v)
  {
    var t := TakeOperands(s, bb[n].l, bb[n].r);
    var first := if s.start.Some? then s.start.value else n;
    forall v ensures v in t.args <==> Tested(bb, counts, first, n + 1, v) {
      if v in t.args {
        if v in s.args {
          var k: nat :| first <= k < n && Uses(bb, k, v) && (k == first || v !in counts);
        } else {
          assert Uses(bb, n, v);
        }
      }
      if Tested(bb, counts, first, n + 1, v) {
        var k: nat :| first <= k < n + 1 && Uses(bb, k, v) && (k == first || v !in counts);
      }
    }
  }

  lemma LastOfRunEnds(bb: BasicBlock, k: nat)
    requires IsArith(bb, k) && k + 1 < |bb| && !bb[k + 1].Arith?
    ensures Ends(bb, k)
  {
    forall q: nat | q < |bb| ensures !InRun(bb, k, q) {
      if k < q {
        assert !IsArith(bb, k + 1);
      }
    }
  }

  lemma ScanStepKeepsInvariant(bb: BasicBlock, counts: Counts, s: Scan, n: nat)
    requires UsedOnce(bb, counts) && n < |bb| && ScanInvariant(bb, counts, s, n)
    ensures ScanInvariant(bb, counts, ScanStep(bb, s, n), n + 1)
  {
    if bb[n].Arith? {
      ArithStepKeepsInvariant(bb, counts, s, n, ScanStep(bb, s, n));
    } else {
      if s.start.Some? {
        LastOfRunEnds(bb, n - 1);
        assert false;
      }
      forall k: nat | k < n + 1 && IsArith(bb, k) ensures Collected(ScanStep(bb, s, n), k) {
        assert Collected(s, k);
      }
    }
  }

  /** A call ends the block being collected, or the block goes on: `first` is where it began. */
  lemma ArithStepUnfolds(bb: BasicBlock, counts: Counts, s: Scan, n: nat, t: Taken, first: nat)
    requires UsedOnce(bb, counts) && IsArith(bb, n) && s.Scan? && Pending(bb, counts, s.counts, n)
    requires t == TakeOperands(s, bb[n].l, bb[n].r) && first == if s.start.Some? then s.start.value else n
    ensures t.Taken? && Pending(bb, counts, t.counts, n + 1)
    ensures ScanStep(bb, s, n)
         == if Ends(bb, n) then Scan(None, {}, t.counts, s.blocks + [Selected(first, n, t.args)])
            else Scan(Some(first), t.args, t.counts, s.blocks)
  {
    OperandsKeepPending(bb, counts, s, n);
    LookAheadDecides(bb, counts, n);
  }

  lemma ArithStepCollects(bb: BasicBlock, s: Scan, n: nat, s': Scan, first: nat, args: set<Value>, k: nat)
    requires s.Scan? && s'.Scan? && k <= n && first == (if s.start.Some? then s.start.value else n) && first <= n
    requires if s'.start.None? then s'.blocks == s.blocks + [Selected(first, n, args)]
             else s'.start.value == first && s'.blocks == s.blocks
    requires k < n ==> Collected(s, k)
    ensures Collected(s', k)
  {
    if s'.start.None? {
      assert Selected(first, n, args) in s'.blocks;
    }
  }

  lemma ArithStepRecords(bb: BasicBlock, counts: Counts, s: Scan, n: nat, s': Scan, b: Selected)
    requires s.Scan? && s'.Scan? && forall b' | b' in s.blocks :: b'.last < n && Recorded(bb, counts, b')
    requires s'.blocks == s.blocks || (s'.blocks == s.blocks + [b] && b.last == n && Recorded(bb, counts, b))
    ensures forall b' | b' in s'.blocks :: b'.last < n + 1 && Recorded(bb, counts, b')
  {
  }

  lemma ArithStepKeepsInvariant(bb: BasicBlock, counts: Counts, s: Scan, n: nat, s': Scan)
    requires UsedOnce(bb, counts) && IsArith(bb, n) && ScanInvariant(bb, counts, s, n)
    requires s' == ScanStep(bb, s, n)
    ensures ScanInvariant(bb, counts, s', n + 1)
  {
    var t := TakeOperands(s, bb[n].l, bb[n].r);
    var first := if s.start.Some? then s.start.value else n;
    assert Collecting(bb, first, n);
    ArithStepUnfolds(bb, counts, s, n, t, first);
    OperandsTested(bb, counts, s, n);
    assert !Ends(bb, n) ==> Collecting(bb, first, n + 1);
    assert Ends(bb, n) ==> Starts(bb, n + 1) && Recorded(bb, counts, Selected(first, n, t.args));
    ArithStepRecords(bb, counts, s, n, s', Selected(first, n, t.args));
    forall k: nat | k < n + 1 && IsArith(bb, k) ensures Collected(s', k) {
      ArithStepCollects(bb, s, n, s', first, t.args, k);
    }
  }

  /** After any part of the scan. */
  lemma {:induction false} ScanKeepsInvariant(bb: BasicBlock, counts: Counts, n: nat, s: Scan)
    requires UsedOnce(bb, counts) && n <= |bb| && s == ScanTo(bb, counts, n)
    ensures ScanInvariant(bb, counts, s, n)
    decreases n
  {
    if n == 0 {
      ScanStartsRight(bb, counts, s);
    } else {
      var before := ScanTo(bb, counts, n - 1);
      ScanKeepsInvariant(bb, counts, n - 1, before);
      NextScanKeepsInvariant(bb, counts, n - 1, before, s);
    }
  }

  lemma NextScanKeepsInvariant(bb: BasicBlock, counts: Counts, n: nat, s: Scan, s': Scan)
    requires UsedOnce(bb, counts) && n < |bb| && ScanInvariant(bb, counts, s, n) && s' == ScanStep(bb, s, n)
    ensures ScanInvariant(bb, counts, s', n + 1)
  {
    ScanStepKeepsInvariant(bb, counts, s, n);
  }

  lemma ScanStartsRight(bb: BasicBlock, counts: Counts, s: Scan)
    requires UsedOnce(bb, counts) && s == Scan(None, {}, counts, [])
    ensures ScanInvariant(bb, counts, s, 0)
  {
    assert Pending(bb, counts, counts, 0);
  }

  /** Every arithmetic call is in a block that the whole scan records. */
  lemma CallIsRecorded(bb: BasicBlock, counts: Counts, s: Scan, k: nat) returns (b: Selected)
    requires UsedOnce(bb, counts) && s == ScanTo(bb, counts, |bb|) && IsArith(bb, k)
    ensures s.Scan? && b in s.blocks && b.first <= k <= b.last && Recorded(bb, counts, b)
  {
    ScanKeepsInvariant(bb, counts, |bb|, s);
    NothingCollecting(bb, counts, s);
    assert Collected(s, k);
    b :| b in s.blocks && b.first <= k <= b.last;
  }

  lemma BlocksAreRecorded(bb: BasicBlock, counts: Counts, s: Scan)
    requires UsedOnce(bb, counts) && s == ScanTo(bb, counts, |bb|)
    ensures s.Scan? && forall b | b in s.blocks :: Recorded(bb, counts, b)
  {
    ScanKeepsInvariant(bb, counts, |bb|, s);
  }

  /**
   On code whose results are used once, every block the pass records keeps all
   its values but the last to itself exactly when no value straddles another
   that leaves the run.
   */
  lemma SelectionIsSoundExactlyWhen(bb: BasicBlock, counts: Counts)
    requires UsedOnce(bb, counts)
    ensures var s := ScanTo(bb, counts, |bb|);
            s.Scan? && ((forall b | b in s.blocks :: Sound(bb, b)) <==> NoStraddle(bb))
  {
    var s := ScanTo(bb, counts, |bb|);
    BlocksAreRecorded(bb, counts, s);
    if NoStraddle(bb) {
      forall b | b in s.blocks ensures Sound(bb, b) {
        BlockIsSound(bb, counts, b);
      }
    } else {
      var i: nat, e: nat, q: nat :| Straddles(bb, i, e, q);
      var b := StraddledBlock(bb, counts, s, i, e, q);
    }
  }

  lemma BlockIsSound(bb: BasicBlock, counts: Counts, b: Selected)
    requires Recorded(bb, counts, b) && NoStraddle(bb)
    ensures Sound(bb, b)
  {
    forall k: nat | b.first <= k < b.last ensures UsedBy(bb, k, b.last) {
      assert IsArith(bb, k) && !Ends(bb, k);
      var q: nat :| q < |bb| && InRun(bb, k, q) && Uses(bb, q, Local(k));
      assert !Straddles(bb, k, b.last, q);
    }
  }

  /** The block that holds a straddling value ends before the value is used. */
  lemma StraddledBlock(bb: BasicBlock, counts: Counts, s: Scan, i: nat, e: nat, q: nat) returns (b: Selected)
    requires UsedOnce(bb, counts) && s == ScanTo(bb, counts, |bb|) && Straddles(bb, i, e, q)
    ensures s.Scan? && b in s.blocks && !Sound(bb, b)
  {
    b := CallIsRecorded(bb, counts, s, i);
    StraddlingBlockEnds(bb, counts, b, i, e, q);
    assert Local(i) in counts;
    assert !UsedBy(bb, i, b.last) by {
      forall q': nat | Uses(bb, q', Local(i)) ensures q' == q {
      }
    }
  }

  lemma NothingCollecting(bb: BasicBlock, counts: Counts, s: Scan)
    requires UsedOnce(bb, counts) && ScanInvariant(bb, counts, s, |bb|)
    ensures s.start.None?
  {
    assert s.start.Some? ==> IsArith(bb, |bb| - 1);
  }

  lemma StraddlingBlockEnds(bb: BasicBlock, counts: Counts, b: Selected, i: nat, e: nat, q: nat)
    requires Recorded(bb, counts, b) && b.first <= i <= b.last && Straddles(bb, i, e, q)
    ensures i < b.last < q
  {
    assert UsedInRun(bb, i);
    if e < b.last {
      assert false;
    }
  }

  /* ---- Coverage of the guard ---- */

  /** The operands a block takes from outside itself. */
  ghost predicate FromOutside(bb: BasicBlock, b: Selected, v: Value) {
    && !v.Const? && !(v.Local? && b.first <= v.index <= b.last)
    && exists k: nat | b.first <= k <= b.last :: Uses(bb, k, v)
  }

  /** The guard of a recorded block tests everything the block takes from outside. */
  ghost predicate Covers(bb: BasicBlock, b: Selected) {
    forall v | FromOutside(bb, b, v) :: v in b.args
  }

  /** An operand of a later call that is the result of a call outside the block. */
  ghost predicate ForeignResult(bb: BasicBlock, counts: Counts, b: Selected, v: Value) {
    && v in counts && !v.Const? && !(v.Local? && b.first <= v.index <= b.last)
    && (exists k: nat | b.first < k <= b.last :: Uses(bb, k, v))
  }

  /**
   The guard of a recorded block tests everything the block takes from outside
   exactly when no later call of the block uses another call's result from
   outside.
   */
  lemma GuardCoversExactlyWhen(bb: BasicBlock, counts: Counts, b: Selected)
    requires UsedOnce(bb, counts)
    requires ScanTo(bb, counts, |bb|).Scan? && b in ScanTo(bb, counts, |bb|).blocks
    ensures Covers(bb, b) <==> (forall v :: !ForeignResult(bb, counts, b, v))
  {
    BlocksAreRecorded(bb, counts, ScanTo(bb, counts, |bb|));
    forall v | FromOutside(bb, b, v) ensures v in b.args <==> !ForeignResult(bb, counts, b, v) {
      var k: nat :| b.first <= k <= b.last && Uses(bb, k, v);
      if v in counts {
        assert forall q: nat | Uses(bb, q, v) :: q == k;
      } else {
        assert Tested(bb, counts, b.first, b.last + 1, v);
      }
      if k == b.first {
        assert Tested(bb, counts, b.first, b.last + 1, v);
      }
    }
  }

  /* ---- Stack-ordered code ---- */

  /** Results are consumed in stack order: while one waits for its use, later ones come and go. */
  ghost predicate StackOrdered(bb: BasicBlock) {
    forall i: nat, j: nat, q: nat | i < j < q && IsArith(bb, i) && IsArith(bb, j) && Uses(bb, q, Local(i)) ::
      UsedBy(bb, j, q)
  }

  lemma StackOrderedDoesNotStraddle(bb: BasicBlock, i: nat, e: nat, q: nat)
    requires StackOrdered(bb)
    ensures !Straddles(bb, i, e, q)
  {
    if i < e < q && InRun(bb, i, q) && Uses(bb, q, Local(i)) {
      assert IsArith(bb, i) && IsArith(bb, e);
      assert UsedBy(bb, e, q);
      var q': nat :| e < q' <= q && Uses(bb, q', Local(e));
      assert InRun(bb, e, q');
    }
  }

  /** In stack-ordered code nothing straddles, so every recorded block is sound. */
  lemma StackOrderedIsSound(bb: BasicBlock, counts: Counts)
    requires UsedOnce(bb, counts) && StackOrdered(bb)
    ensures var s := ScanTo(bb, counts, |bb|);
            s.Scan? && forall b | b in s.blocks :: Sound(bb, b)
  {
    forall i: nat, e: nat, q: nat ensures !Straddles(bb, i, e, q) {
      StackOrderedDoesNotStraddle(bb, i, e, q);
    }
    SelectionIsSoundExactlyWhen(bb, counts);
  }
}
