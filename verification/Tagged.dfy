/**
 Tagged 64-bit words, the representation of every MysoreScript value: the low
 three bits are 000 for an object pointer (null is the word 0) and 001 for a
 61-bit integer held in the upper bits.
 */
module Tagged {

  const TWO_60: int := 0x1000_0000_0000_0000
  const TWO_61: int := 0x2000_0000_0000_0000
  const TWO_63: int := 0x8000_0000_0000_0000
  const TWO_64: int := 0x1_0000_0000_0000_0000

  type Word = w: int | 0 <= w < 0x1_0000_0000_0000_0000

  datatype CmpOp = Eq | Ne | Lt | Gt | Le | Ge

  datatype ArithOp = Add | Sub | Mul | Div

  /** The outcome of an operation that an assertion or a hardware trap may stop. */
  datatype Checked = Fine(w: Word) | Trapped

  /** Two's-complement truncation to 64 bits. */
  function Wrap(i: int): Word {
    i % TWO_64
  }

  /** The `intptr_t` reading of a word. */
  function Signed(w: Word): int {
    if w < TWO_63 then w else w - TWO_64
  }

  function Tag(w: Word): int {
    w % 8
  }

  predicate IsInteger(w: Word) {
    Tag(w) == 1
  }

  /** `(intptr_t)w >> 3`: Dafny's division by a positive number rounds down, as the shift does. */
  function Shr3(w: Word): int {
    Signed(w) / 8
  }

  /** `w lshr 3`. */
  function Lshr3(w: Word): Word {
    w / 8
  }

  /** `(i << 3) | 1`: the shift leaves the low bits clear, so the `or` adds one. */
  function Encode(i: int): Word {
    Wrap(8 * i) + 1
  }

  /** `(i << 3) >> 3 == i`: the integers that survive being tagged. */
  predicate Fits(i: int) {
    -TWO_60 <= i < TWO_60
  }

  /** C++ division of `intptr_t` values truncates toward zero. */
  function TruncDiv(l: int, r: int): int
    requires r != 0
  {
    var q := (if l < 0 then -l else l) / (if r < 0 then -r else r);
    if (l < 0) == (r < 0) then q else -q
  }

  /** 64-bit arithmetic on already untagged operands; `None` is the trap of a division by zero. */
  function RawArith(op: ArithOp, l: int, r: int): int
    requires op.Div? ==> r != 0
  {
    match op
    case Add => Signed(Wrap(l + r))
    case Sub => Signed(Wrap(l - r))
    case Mul => Signed(Wrap(l * r))
    case Div => Signed(Wrap(TruncDiv(l, r)))
  }

  /** The integer case of an arithmetic operator, with the range assertion of `createSmallInteger`. */
  function TaggedArith(op: ArithOp, l: Word, r: Word): Checked {
    if op.Div? && Shr3(r) == 0 then Trapped
    else
      var i := RawArith(op, Shr3(l), Shr3(r));
      if Fits(i) then Fine(Encode(i)) else Trapped
  }

  predicate Compare(op: CmpOp, l: int, r: int) {
    match op
    case Eq => l == r
    case Ne => l != r
    case Lt => l < r
    case Gt => l > r
    case Le => l <= r
    case Ge => l >= r
  }

  /** The interpreter compares the operands after shifting their tags away. */
  predicate ShiftedCompare(op: CmpOp, l: Word, r: Word) {
    Compare(op, Shr3(l), Shr3(r))
  }

  /** Compiled code compares whole words. */
  predicate WordCompare(op: CmpOp, l: Word, r: Word) {
    Compare(op, Signed(l), Signed(r))
  }

  function Bool(b: bool): Word {
    if b then Encode(1) else Encode(0)
  }

  /** The interpreter's test `w & ~7`. */
  predicate Truthy(w: Word) {
    w - w % 8 != 0
  }

  /** Tagging and untagging are inverse on exactly the integers that fit. */
  lemma EncodeDecode(i: int)
    requires -TWO_63 <= i < TWO_63
    ensures IsInteger(Encode(i))
    ensures Shr3(Encode(i)) == i <==> Fits(i)
  {
    var k := 8 * i / TWO_64;
    assert 8 * i == TWO_64 * k + Wrap(8 * i);
    assert Wrap(8 * i) == 8 * (i - TWO_61 * k);
    var low := i - TWO_61 * k;
    assert Encode(i) == 8 * low + 1 && 0 <= low < TWO_61;
    assert Shr3(Encode(i)) == if low < TWO_60 then low else low - TWO_61;
    if Fits(i) {
      assert i < 0 ==> k == -1;
      assert i >= 0 ==> k == 0;
    }
  }

  /** A word is its shifted value and its tag. */
  lemma SplitWord(w: Word)
    ensures Signed(w) == 8 * Shr3(w) + Tag(w)
  {
  }

  /** The two truth tests agree on every word. */
  lemma TruthTestsAgree(w: Word)
    ensures Truthy(w) <==> Lshr3(w) != 0
  {
  }

  /**
   Whole-word and shifted comparison agree exactly when the shifted values
   differ, or the tags alone compare as two equal numbers do.
   */
  lemma ComparisonsAgree(op: CmpOp, l: Word, r: Word)
    ensures WordCompare(op, l, r) == ShiftedCompare(op, l, r)
            <==> Shr3(l) != Shr3(r) || Compare(op, Tag(l), Tag(r)) == Compare(op, 0, 0)
    ensures Tag(l) == Tag(r) ==> WordCompare(op, l, r) == ShiftedCompare(op, l, r)
  {
    SplitWord(l);
    SplitWord(r);
  }

  /** They do disagree: null equals the integer zero in the interpreter and not in compiled code. */
  lemma NullEqualsZeroOnlyWhenInterpreted()
    ensures ShiftedCompare(Eq, 0, Encode(0)) && !WordCompare(Eq, 0, Encode(0))
  {
  }
}
