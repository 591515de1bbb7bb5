/**
 The bytes of a stack map section in the layout of LLVM's "Stack maps and patch
 points", section "Stack Map Format", version 3, and the two parsers that a side
 exit reads it with.
 */
module StackMap {
  import opened Tagged

  type Byte = b: int | 0 <= b < 256

  type Bytes = seq<Byte>

  /* ---- Little-endian numbers ---- */

  function Pow256(n: nat): (p: nat)
    ensures p > 0
  {
    if n == 0 then 1 else 256 * Pow256(n - 1)
  }

  function Le(v: nat, n: nat): (s: Bytes)
    ensures |s| == n
  {
    if n == 0 then [] else [v % 256] + Le(v / 256, n - 1)
  }

  function At(bs: Bytes, i: nat): Byte {
    if i < |bs| then bs[i] else 0
  }

  function ReadLe(bs: Bytes, at: nat, n: nat): nat
    decreases n
  {
    if n == 0 then 0 else At(bs, at) + 256 * ReadLe(bs, at + 1, n - 1)
  }

  /** The bytes at an address begin with `part`. */
  predicate Holds(bs: Bytes, at: nat, part: Bytes) {
    at + |part| <= |bs| && bs[at..at + |part|] == part
  }

  lemma HoldsSplit(bs: Bytes, at: nat, a: Bytes, b: Bytes)
    requires Holds(bs, at, a + b)
    ensures Holds(bs, at, a) && Holds(bs, at + |a|, b)
  {
    var ab := a + b;
    assert a == ab[..|a|] && b == ab[|a|..];
    assert bs[at..at + |a|] == bs[at..at + |ab|][..|a|];
    assert bs[at + |a|..at + |a| + |b|] == bs[at..at + |ab|][|a|..];
  }

  lemma {:induction false} ReadBack(bs: Bytes, at: nat, v: nat, n: nat)
    requires Holds(bs, at, Le(v, n)) && v < Pow256(n)
    ensures ReadLe(bs, at, n) == v
    decreases n
  {
    if n > 0 {
      assert Le(v, n) == [v % 256] + Le(v / 256, n - 1);
      HoldsSplit(bs, at, [v % 256], Le(v / 256, n - 1));
      assert bs[at..at + 1][0] == v % 256;
      ReadBack(bs, at + 1, v / 256, n - 1);
    }
  }

  lemma Powers()
    ensures Pow256(2) == 0x1_0000 && Pow256(4) == 0x1_0000_0000 && Pow256(8) == TWO_64
  {
    assert Pow256(1) == 256 && Pow256(2) == 256 * 256 && Pow256(3) == 0x100_0000;
    assert Pow256(4) == 256 * Pow256(3) && Pow256(5) == 256 * Pow256(4) && Pow256(6) == 256 * Pow256(5);
    assert Pow256(7) == 256 * Pow256(6);
  }

  /** The first byte is the lowest. */
  lemma ReadBytes(bs: Bytes, at: nat, b0: int, b1: int, b2: int, b3: int)
    requires at + 8 <= |bs| && b0 == bs[at] && b1 == bs[at + 1] && b2 == bs[at + 2] && b3 == bs[at + 3]
    ensures ReadLe(bs, at, 1) == b0
    ensures ReadLe(bs, at, 2) == b0 + 0x100 * b1
    ensures ReadLe(bs, at, 4) == b0 + 0x100 * b1 + 0x1_0000 * b2 + 0x100_0000 * b3
    ensures ReadLe(bs, at, 8) == ReadLe(bs, at, 4) + 0x1_0000_0000 * ReadLe(bs, at + 4, 4)
  {
    assert ReadLe(bs, at + 3, 1) == b3 && ReadLe(bs, at + 2, 2) == b2 + 0x100 * b3;
    assert ReadLe(bs, at + 1, 1) == b1;
    assert ReadLe(bs, at + 1, 3) == b1 + 0x100 * ReadLe(bs, at + 2, 2);
    assert ReadLe(bs, at + 3, 5) == b3 + 0x100 * ReadLe(bs, at + 4, 4);
    assert ReadLe(bs, at + 2, 6) == b2 + 0x100 * ReadLe(bs, at + 3, 5);
    assert ReadLe(bs, at + 1, 7) == b1 + 0x100 * ReadLe(bs, at + 2, 6);
  }

  /* ---- The section ---- */

  /** `kind` is 1 for a register, 2 direct, 3 indirect, 4 a constant, 5 an index into the large constants. */
  datatype Location = Location(kind: Byte, size: nat, reg: nat, offset: int)

  datatype LiveOut = LiveOut(reg: nat, size: Byte)

  datatype Record = Record(id: nat, instructionOffset: nat, locations: seq<Location>, liveOuts: seq<LiveOut>)

  datatype FunctionEntry = FunctionEntry(address: nat, stackSize: nat, recordCount: nat)

  datatype Section = Section(functions: seq<FunctionEntry>, constants: seq<nat>, records: seq<Record>)

  predicate LocationFits(l: Location) {
    l.size < 0x1_0000 && l.reg < 0x1_0000 && -0x8000_0000 <= l.offset < 0x8000_0000
  }

  predicate RecordFits(r: Record) {
    && r.id < TWO_64 && r.instructionOffset < 0x1_0000_0000
    && |r.locations| < 0x1_0000 && |r.liveOuts| < 0x1_0000
    && forall i | 0 <= i < |r.locations| :: LocationFits(r.locations[i])
  }

  predicate SectionFits(s: Section) {
    |s.functions| < 0x1_0000_0000 && |s.constants| < 0x1_0000_0000 && |s.records| < 0x1_0000_0000
  }

  /** Neither table reaches the size at which the parser's 32-bit products wrap. */
  predicate TablesFit(s: Section) {
    24 * |s.functions| < 0x1_0000_0000 && 8 * |s.constants| < 0x1_0000_0000
  }

  function Unsigned32(i: int): nat {
    i % 0x1_0000_0000
  }

  function Signed32(v: nat): int {
    if v < 0x8000_0000 then v else v - 0x1_0000_0000
  }

  function EncodeLocation(l: Location): (s: Bytes)
    ensures |s| == 12
  {
    [l.kind, 0] + (Le(l.size, 2) + (Le(l.reg, 2) + ([0, 0] + Le(Unsigned32(l.offset), 4))))
  }

  function EncodeLocations(ls: seq<Location>): (s: Bytes)
    ensures |s| == 12 * |ls|
  {
    if ls == [] then [] else EncodeLocation(ls[0]) + EncodeLocations(ls[1..])
  }

  function EncodeLiveOuts(ls: seq<LiveOut>): (s: Bytes)
    ensures |s| == 4 * |ls|
  {
    if ls == [] then [] else Le(ls[0].reg, 2) + [0, ls[0].size] + EncodeLiveOuts(ls[1..])
  }

  /** Padding to a multiple of eight bytes after `n` bytes. */
  function Padding(n: nat): Bytes {
    if n % 8 == 0 then [] else [0, 0, 0, 0]
  }

  lemma PaddedLength(n: nat)
    requires n % 4 == 0
    ensures (n + |Padding(n)|) % 8 == 0
  {
  }

  function RecordHead(r: Record): (s: Bytes)
    ensures |s| == 16
  {
    Le(r.id, 8) + (Le(r.instructionOffset, 4) + ([0, 0] + Le(|r.locations|, 2)))
  }

  function LiveOutPart(liveOuts: seq<LiveOut>): (s: Bytes)
    ensures |s| % 8 == 0
  {
    var m := 4 + 4 * |liveOuts|;
    PaddedLength(m);
    var part := [0, 0] + Le(|liveOuts|, 2) + EncodeLiveOuts(liveOuts);
    part + Padding(m)
  }

  function LocationPart(locations: seq<Location>): (s: Bytes)
    ensures |s| % 8 == 0
  {
    PaddedLength(12 * |locations|);
    EncodeLocations(locations) + Padding(12 * |locations|)
  }

  function EncodeRecord(r: Record): Bytes {
    RecordHead(r) + (LocationPart(r.locations) + LiveOutPart(r.liveOuts))
  }

  function EncodeRecords(rs: seq<Record>): Bytes {
    if rs == [] then [] else EncodeRecord(rs[0]) + EncodeRecords(rs[1..])
  }

  function EncodeFunctions(fs: seq<FunctionEntry>): (s: Bytes)
    ensures |s| == 24 * |fs|
  {
    if fs == [] then []
    else Le(fs[0].address, 8) + Le(fs[0].stackSize, 8) + Le(fs[0].recordCount, 8) + EncodeFunctions(fs[1..])
  }

  function EncodeConstants(cs: seq<nat>): (s: Bytes)
    ensures |s| == 8 * |cs|
  {
    if cs == [] then [] else Le(cs[0], 8) + EncodeConstants(cs[1..])
  }

  function EncodeHeader(functions: nat, constants: nat, records: nat): (s: Bytes)
    ensures |s| == 16
  {
    [3, 0, 0, 0] + (Le(functions, 4) + (Le(constants, 4) + Le(records, 4)))
  }

  function EncodeTables(s: Section): (bs: Bytes)
    ensures |bs| == 24 * |s.functions| + 8 * |s.constants|
  {
    EncodeFunctions(s.functions) + EncodeConstants(s.constants)
  }

  function EncodeSection(s: Section): Bytes {
    EncodeHeader(|s.functions|, |s.constants|, |s.records|) + (EncodeTables(s) + EncodeRecords(s.records))
  }

  /** Kind, size, DWARF number and offset of an eight-byte slot 16 bytes below the word in `%rbp`. */
  lemma LocationBytes()
    ensures EncodeLocation(Location(2, 8, 6, -16)) == [2, 0, 8, 0, 6, 0, 0, 0, 240, 255, 255, 255]
  {
    NumberBytes(8, 0, 0, 0);
    NumberBytes(6, 0, 0, 0);
    NumberBytes(240, 255, 255, 255);
    assert Unsigned32(-16) == 240 + 0x100 * 255 + 0x1_0000 * 255 + 0x100_0000 * 255;
  }

  lemma NumberBytes(b0: nat, b1: nat, b2: nat, b3: nat)
    requires b0 < 256 && b1 < 256 && b2 < 256 && b3 < 256
    ensures Le(b0 + 0x100 * b1, 2) == [b0, b1]
    ensures Le(b0 + 0x100 * b1 + 0x1_0000 * b2 + 0x100_0000 * b3, 4) == [b0, b1, b2, b3]
  {
    assert Le(b3, 1) == [b3] && Le(b1, 1) == [b1];
    assert Le(b2 + 0x100 * b3, 2) == [b2, b3];
    assert Le(b1 + 0x100 * b2 + 0x1_0000 * b3, 3) == [b1, b2, b3];
    var v := b0 + 0x100 * b1 + 0x1_0000 * b2 + 0x100_0000 * b3;
    assert v % 256 == b0 && v / 256 == b1 + 0x100 * b2 + 0x1_0000 * b3;
  }

  /** The header of a section with one function, no constants and one record. */
  lemma HeaderBytes()
    ensures EncodeHeader(1, 0, 1) == [3, 0, 0, 0, 1, 0, 0, 0, 0, 0, 0, 0, 1, 0, 0, 0]
  {
    NumberBytes(1, 0, 0, 0);
    NumberBytes(0, 0, 0, 0);
  }

  /* ---- The section parser ---- */

  /** Header and table sizes; the products are 32-bit. */
  function RecordsBase(functions: nat, constants: nat): nat {
    16 + functions * 24 % 0x1_0000_0000 + constants * 8 % 0x1_0000_0000
  }

  class StackMapParser {
    const bytes: Bytes
    const recordsBase: nat

    /** The version byte is asserted. The records of an encoded section are where the parser will look. */
    constructor (location: Bytes)
      requires At(location, 0) == 3
      ensures bytes == location
      ensures recordsBase == RecordsBase(ReadLe(location, 4, 4), ReadLe(location, 8, 4))
      ensures forall s | SectionFits(s) && TablesFit(s) && Holds(location, 0, EncodeSection(s)) ::
                Holds(location, recordsBase, EncodeRecords(s.records))
    {
      bytes := location;
      recordsBase := RecordsBase(ReadLe(location, 4, 4), ReadLe(location, 8, 4));
      new;
      forall s | SectionFits(s) && TablesFit(s) && Holds(location, 0, EncodeSection(s))
        ensures Holds(location, recordsBase, EncodeRecords(s.records))
      {
        SectionRoundTrip(location, s);
        RecordsBaseIsRightExactlyWhen(location, s);
      }
    }

    method GetNumFunctions() returns (n: nat)
      ensures forall s | SectionFits(s) && Holds(bytes, 0, EncodeSection(s)) :: n == |s.functions|
    {
      n := ReadLe(bytes, 4, 4);
      forall s | SectionFits(s) && Holds(bytes, 0, EncodeSection(s)) ensures n == |s.functions| {
        SectionRoundTrip(bytes, s);
      }
    }

    method GetNumRecords() returns (n: nat)
      ensures forall s | SectionFits(s) && Holds(bytes, 0, EncodeSection(s)) :: n == |s.records|
    {
      n := ReadLe(bytes, 12, 4);
      forall s | SectionFits(s) && Holds(bytes, 0, EncodeSection(s)) ensures n == |s.records| {
        SectionRoundTrip(bytes, s);
      }
    }
  }

  lemma HeaderRoundTrip(bs: Bytes, a: nat, b: nat, c: nat)
    requires a < 0x1_0000_0000 && b < 0x1_0000_0000 && c < 0x1_0000_0000
    requires Holds(bs, 0, EncodeHeader(a, b, c))
    ensures At(bs, 0) == 3 && ReadLe(bs, 4, 4) == a && ReadLe(bs, 8, 4) == b && ReadLe(bs, 12, 4) == c
  {
    Powers();
    HoldsSplit(bs, 0, [3, 0, 0, 0], Le(a, 4) + (Le(b, 4) + Le(c, 4)));
    assert bs[0..4][0] == 3;
    HoldsSplit(bs, 4, Le(a, 4), Le(b, 4) + Le(c, 4));
    HoldsSplit(bs, 8, Le(b, 4), Le(c, 4));
    ReadBack(bs, 4, a, 4);
    ReadBack(bs, 8, b, 4);
    ReadBack(bs, 12, c, 4);
  }

  /** Reading back the header gives the counts; the records follow the tables. */
  lemma SectionRoundTrip(bs: Bytes, s: Section)
    requires SectionFits(s) && Holds(bs, 0, EncodeSection(s))
    ensures At(bs, 0) == 3
    ensures ReadLe(bs, 4, 4) == |s.functions| && ReadLe(bs, 8, 4) == |s.constants| && ReadLe(bs, 12, 4) == |s.records|
    ensures Holds(bs, 16 + |EncodeTables(s)|, EncodeRecords(s.records))
  {
    var header := EncodeHeader(|s.functions|, |s.constants|, |s.records|);
    HoldsSplit(bs, 0, header, EncodeTables(s) + EncodeRecords(s.records));
    HeaderRoundTrip(bs, |s.functions|, |s.constants|, |s.records|);
    HoldsSplit(bs, 16, EncodeTables(s), EncodeRecords(s.records));
  }

  lemma TablesWrap(functions: nat, constants: nat)
    ensures RecordsBase(functions, constants) == 16 + 24 * functions + 8 * constants
            <==> 24 * functions < 0x1_0000_0000 && 8 * constants < 0x1_0000_0000
  {
  }

  /** The parser's records begin where the section's do exactly when no table size wraps. */
  lemma RecordsBaseIsRightExactlyWhen(bs: Bytes, s: Section)
    requires SectionFits(s) && Holds(bs, 0, EncodeSection(s))
    ensures RecordsBase(ReadLe(bs, 4, 4), ReadLe(bs, 8, 4)) == 16 + |EncodeTables(s)|
            <==> TablesFit(s)
  {
    var functions, constants := |s.functions|, |s.constants|;
    TablesWrap(functions, constants);
    assert |EncodeTables(s)| == 24 * functions + 8 * constants;
    assert ReadLe(bs, 4, 4) == functions && ReadLe(bs, 8, 4) == constants by {
      SectionRoundTrip(bs, s);
    }
  }

  /** `getBytesInRecord`, at a record's address. */
  function BytesInRecord(bs: Bytes, record: nat): nat {
    var locations := ReadLe(bs, record + 16, 2);
    var n := 16 + 12 * locations + (if locations % 2 == 1 then 4 else 0) + 2;
    var liveOuts := ReadLe(bs, record + n, 2);
    n + 4 * liveOuts + if liveOuts % 2 == 0 then 4 else 0
  }

  lemma SumOfEights(a: nat, b: nat)
    requires a % 8 == 0 && b % 8 == 0
    ensures (16 + (a + b)) % 8 == 0
  {
  }

  lemma RecordLength(r: Record)
    ensures |EncodeRecord(r)| % 8 == 0
  {
    SumOfEights(|LocationPart(r.locations)|, |LiveOutPart(r.liveOuts)|);
  }

  lemma StrideResidue(bs: Bytes, record: nat)
    ensures BytesInRecord(bs, record) % 4 == 2
  {
    var locations := ReadLe(bs, record + 16, 2);
    var k := 4 + 3 * locations + (if locations % 2 == 1 then 1 else 0);
    var n := 16 + 12 * locations + (if locations % 2 == 1 then 4 else 0) + 2;
    assert n == 4 * k + 2;
    var liveOuts := ReadLe(bs, record + n, 2);
    var m := k + liveOuts + if liveOuts % 2 == 0 then 1 else 0;
    assert BytesInRecord(bs, record) == 4 * m + 2;
    TwoModuloFour(m);
  }

  lemma TwoModuloFour(m: nat)
    ensures (4 * m + 2) % 4 == 2
  {
  }

  lemma NoCommonLength(stride: nat, length: nat)
    requires stride % 4 == 2 && length % 8 == 0
    ensures stride != length
  {
  }

  /** A record is a multiple of eight bytes long and the computed stride never is: no second record can be found. */
  lemma StrideIsNeverRight(bs: Bytes, record: nat, r: Record)
    ensures BytesInRecord(bs, record) != |EncodeRecord(r)|
  {
    RecordLength(r);
    StrideResidue(bs, record);
    NoCommonLength(BytesInRecord(bs, record), |EncodeRecord(r)|);
  }

  /* ---- The record parser ---- */

  function LocationAt(bs: Bytes, at: nat): Location {
    Location(At(bs, at), ReadLe(bs, at + 2, 2), ReadLe(bs, at + 4, 2), Signed32(ReadLe(bs, at + 8, 4)))
  }

  lemma LocationRoundTrip(bs: Bytes, at: nat, l: Location)
    requires LocationFits(l) && Holds(bs, at, EncodeLocation(l))
    ensures LocationAt(bs, at) == l
  {
    Powers();
    var offset := Le(Unsigned32(l.offset), 4);
    HoldsSplit(bs, at, [l.kind, 0], Le(l.size, 2) + (Le(l.reg, 2) + ([0, 0] + offset)));
    assert bs[at..at + 2][0] == l.kind;
    HoldsSplit(bs, at + 2, Le(l.size, 2), Le(l.reg, 2) + ([0, 0] + offset));
    HoldsSplit(bs, at + 4, Le(l.reg, 2), [0, 0] + offset);
    HoldsSplit(bs, at + 6, [0, 0], offset);
    ReadBack(bs, at + 2, l.size, 2);
    ReadBack(bs, at + 4, l.reg, 2);
    ReadBack(bs, at + 8, Unsigned32(l.offset), 4);
  }

  lemma {:induction false} LocationsRoundTrip(bs: Bytes, at: nat, ls: seq<Location>, i: nat)
    requires Holds(bs, at, EncodeLocations(ls)) && i < |ls| && LocationFits(ls[i])
    ensures LocationAt(bs, at + 12 * i) == ls[i]
    decreases i
  {
    HoldsSplit(bs, at, EncodeLocation(ls[0]), EncodeLocations(ls[1..]));
    if i == 0 {
      LocationRoundTrip(bs, at, ls[0]);
    } else {
      LocationsRoundTrip(bs, at + 12, ls[1..], i - 1);
    }
  }

  /** Every field the record parser reads from an encoded record is the record's own. */
  lemma RecordRoundTrip(bs: Bytes, at: nat, r: Record)
    requires RecordFits(r) && Holds(bs, at, EncodeRecord(r))
    ensures ReadLe(bs, at, 8) == r.id && ReadLe(bs, at + 8, 4) == r.instructionOffset
    ensures ReadLe(bs, at + 14, 2) == |r.locations|
    ensures forall i: nat | i < |r.locations| :: LocationAt(bs, at + 16 + 12 * i) == r.locations[i]
  {
    Powers();
    var count := Le(|r.locations|, 2);
    HoldsSplit(bs, at, RecordHead(r), LocationPart(r.locations) + LiveOutPart(r.liveOuts));
    HoldsSplit(bs, at, Le(r.id, 8), Le(r.instructionOffset, 4) + ([0, 0] + count));
    HoldsSplit(bs, at + 8, Le(r.instructionOffset, 4), [0, 0] + count);
    HoldsSplit(bs, at + 12, [0, 0], count);
    ReadBack(bs, at, r.id, 8);
    ReadBack(bs, at + 8, r.instructionOffset, 4);
    ReadBack(bs, at + 14, |r.locations|, 2);
    HoldsSplit(bs, at + 16, LocationPart(r.locations), LiveOutPart(r.liveOuts));
    HoldsSplit(bs, at + 16, EncodeLocations(r.locations), Padding(12 * |r.locations|));
    forall i: nat | i < |r.locations| ensures LocationAt(bs, at + 16 + 12 * i) == r.locations[i] {
      LocationsRoundTrip(bs, at + 16, r.locations, i);
    }
  }

  /** The sixteen saved registers, in the order in which they were pushed. */
  type Registers = rs: seq<Word> | |rs| == 16 witness seq(16, _ => 0)

  /** A location that needs a register names one that was saved. */
  predicate Readable(l: Location) {
    l.kind == 1 || l.kind == 2 ==> l.reg < 16
  }

  /** The 64-bit number `v` is `i`, up to wrap-around. */
  predicate Is64(v: int, i: int) {
    -TWO_63 <= v < TWO_63 && (v - i) % TWO_64 == 0
  }

  lemma WordIs64(w: Word, i: int)
    requires (w - i) % TWO_64 == 0
    ensures Is64(Signed(w), i)
  {
    var k := (w - i) / TWO_64;
    assert w - i == TWO_64 * k;
    assert w - TWO_64 - i == TWO_64 * (k - 1);
  }

  class SMRecordParser {
    const bytes: Bytes
    const recordBase: nat
    const registers: Registers
    var id: nat
    var offset: nat
    var numLocations: nat
    var recordsRetrieved: nat
    var position: nat

    ghost predicate Valid()
      reads this
    {
      && numLocations == ReadLe(bytes, recordBase + 14, 2)
      && recordsRetrieved <= numLocations
      && position == recordBase + 16 + 12 * recordsRetrieved
    }

    constructor (recBase: nat, section: Bytes, saved: Registers)
      ensures Valid() && recordsRetrieved == 0
      ensures bytes == section && recordBase == recBase && registers == saved
      ensures id == ReadLe(section, recBase, 8) && offset == ReadLe(section, recBase + 8, 4)
    {
      bytes, recordBase, registers := section, recBase, saved;
      recordsRetrieved := 0;
      id := ReadLe(section, recBase, 8);
      offset := ReadLe(section, recBase + 8, 4);
      numLocations := ReadLe(section, recBase + 14, 2);
      position := recBase + 16;
    }

    /**
     The next value of the record, and -1 when there is none. The first location names
     the register for the patchpoint's result. Of the others, a register location
     stands for the saved word, a direct one for that word plus the offset, and a
     constant one for the constant.
     */
    method NextValue() returns (v: int)
      requires Valid()
      requires 0 < recordsRetrieved < numLocations ==>
                 Readable(LocationAt(bytes, recordBase + 16 + 12 * recordsRetrieved))
      modifies this`recordsRetrieved, this`position
      ensures Valid()
      ensures var k := old(recordsRetrieved);
              var l := LocationAt(bytes, recordBase + 16 + 12 * k);
              && recordsRetrieved == (if k < numLocations then k + 1 else k)
              && (k >= numLocations ==> v == -1)
              && (k < numLocations && k == 0 ==> v == l.reg)
              && (0 < k < numLocations && l.kind == 1 ==> Is64(v, registers[l.reg]))
              && (0 < k < numLocations && l.kind == 2 ==> Is64(v, registers[l.reg] + l.offset))
              && (0 < k < numLocations && l.kind == 4 ==> v == l.offset)
              && (0 < k < numLocations && l.kind != 1 && l.kind != 2 && l.kind != 4 ==> v == -1)
    {
      if recordsRetrieved >= numLocations {
        return -1;
      }
      var kind := At(bytes, position);
      var regnum := ReadLe(bytes, position + 4, 2);
      var locOffset := Signed32(ReadLe(bytes, position + 8, 4));
      position := position + 12;
      recordsRetrieved := recordsRetrieved + 1;
      if recordsRetrieved == 1 {
        return regnum;
      }
      if kind == 1 {
        WordIs64(registers[regnum], registers[regnum]);
        return Signed(registers[regnum]);
      } else if kind == 2 {
        WordIs64(Wrap(registers[regnum] + locOffset), registers[regnum] + locOffset);
        return Signed(Wrap(registers[regnum] + locOffset));
      } else if kind == 4 {
        return locOffset;
      }
      v := -1;
    }
  }
}
