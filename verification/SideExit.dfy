/**
 From the bytes of a stack map to the symbol table of a resumed function: the
 locations decoded by the record parser are the addresses that the compiler
 recorded, so the table is the one `Frames.Rebuild` describes.
 */
module SideExit {
  import opened Tagged
  import opened Ast
  import opened Runtime
  import opened Frames
  import opened StackMap

  /** Machine addresses: null, the words of an object, and wherever the frame's slots are. */
  function Place(slots: Addr -> Word, a: Addr): Word {
    match a
    case Null => 0
    case Field(o, i) => Wrap(o + 8 * i)
    case _ => slots(a)
  }

  function PlaceAll(slots: Addr -> Word, t: Table): map<string, Word> {
    map x | x in t :: Place(slots, t[x])
  }

  /**
   Where the compiled code has left an address: in a saved register, as many bytes
   from the word in a saved register as the offset says, or in the location itself.
   */
  predicate LaidOut(l: Location, regs: Registers, address: Word) {
    match l.kind
    case 1 => l.reg < 16 && regs[l.reg] == address
    case 2 => l.reg < 16 && (regs[l.reg] + l.offset - address) % TWO_64 == 0
    case 4 => (l.offset - address) % TWO_64 == 0
    case _ => false
  }

  /** The location stands for the machine address of `a`. */
  ghost predicate Locates(l: Location, regs: Registers, slots: Addr -> Word, a: Addr) {
    LaidOut(l, regs, Place(slots, a))
  }

  /**
   The record of a patchpoint: a result register, the address of the node to
   resume at, and the operands of the frame, each in a location that stands for it.
   */
  ghost predicate Describes(r: Record, regs: Registers, slots: Addr -> Word, node: Word, frame: seq<Addr>) {
    && RecordFits(r) && |r.locations| == 2 + |frame|
    && LaidOut(r.locations[1], regs, node)
    && forall i: nat | i < |frame| :: Locates(r.locations[2 + i], regs, slots, frame[i])
  }

  /** Memory and the class pointers in it, as the side exit finds them through the `self` and `cmd` operands. */
  ghost predicate Shows(
    st: State, slots: Addr -> Word, memory: Word -> Word, classOf: Word -> Word, self: Addr, cmd: Addr)
  {
    && (Place(slots, self) == 0 <==> self.Null?) && (Place(slots, cmd) == 0 <==> cmd.Null?)
    && (!self.Null? ==> memory(Place(slots, self)) == Load(st, self))
    && (!self.Null? ==> classOf(Load(st, self)) == ClassOf(st.heap, Load(st, self)))
  }

  /** What the side exit hands on: where the result goes, the node, and the symbol table. */
  datatype Resumption = Resumption(returnRegister: int, node: Word, symbols: map<string, Word>)

  lemma PlaceEntry(slots: Addr -> Word, t: Table, x: string, a: Addr)
    ensures PlaceAll(slots, t)[x := Place(slots, a)] == PlaceAll(slots, t[x := a])
  {
  }

  /** `Bind` from the first name to the last. */
  function BindFrom(t: Table, names: seq<string>, addrs: seq<Addr>, i: nat): Table
    requires i <= |names| == |addrs|
    decreases |names| - i
  {
    if i == |names| then t else BindFrom(t[names[i] := addrs[i]], names, addrs, i + 1)
  }

  lemma {:induction false} BindForwards(t: Table, names: seq<string>, addrs: seq<Addr>, i: nat)
    requires i <= |names| == |addrs|
    ensures BindFrom(Bind(t, names[..i], addrs[..i]), names, addrs, i) == Bind(t, names, addrs)
    decreases |names| - i
  {
    if i == |names| {
      assert names[..i] == names && addrs[..i] == addrs;
    } else {
      assert names[..i + 1][..i] == names[..i] && addrs[..i + 1][..i] == addrs[..i];
      BindForwards(t, names, addrs, i + 1);
    }
  }

  lemma BindIsForwards(t: Table, names: seq<string>, addrs: seq<Addr>)
    requires |names| == |addrs|
    ensures BindFrom(t, names, addrs, 0) == Bind(t, names, addrs)
  {
    BindForwards(t, names, addrs, 0);
    assert names[..0] == [] && addrs[..0] == [];
  }

  /** A slot `d` bytes from the word in saved register `k`, as the direct location of that register and offset. */
  lemma SlotIsLaidOut(regs: Registers, k: nat, d: int, address: Word)
    requires k < 16
    ensures LaidOut(Location(2, 8, k, d), regs, address) <==> address == Wrap(regs[k] + d)
  {
    var j := (regs[k] + d) / TWO_64;
    assert regs[k] + d == TWO_64 * j + Wrap(regs[k] + d);
    if LaidOut(Location(2, 8, k, d), regs, address) {
      var i := (regs[k] + d - address) / TWO_64;
      assert regs[k] + d == TWO_64 * i + address;
      assert address - Wrap(regs[k] + d) == TWO_64 * (j - i);
    }
  }

  /** Two words that are the same number up to wrap-around are one word. */
  lemma SameWord(v: int, i: int, w: Word)
    requires Is64(v, i) && (i - w) % TWO_64 == 0
    ensures Wrap(v) == w
  {
    var k, j := (v - i) / TWO_64, (i - w) / TWO_64;
    assert v - i == TWO_64 * k && i - w == TWO_64 * j;
    assert v == w + TWO_64 * (k + j);
  }

  /** What the parser makes of a location is the address that was left there. */
  lemma AddressIsRead(l: Location, regs: Registers, address: Word, v: int)
    requires LaidOut(l, regs, address)
    requires l.kind == 1 ==> Is64(v, regs[l.reg])
    requires l.kind == 2 ==> Is64(v, regs[l.reg] + l.offset)
    requires l.kind == 4 ==> v == l.offset && -TWO_63 <= v < TWO_63
    ensures Wrap(v) == address
  {
    SameWord(v, if l.kind == 1 then regs[l.reg] else if l.kind == 2 then regs[l.reg] + l.offset else l.offset, address);
  }

  /** A location that is read from 32 bits. */
  lemma OffsetIs32(bs: Bytes, at: nat)
    ensures -0x8000_0000 <= LocationAt(bs, at).offset < 0x8000_0000
  {
    Powers();
    ReadIsBelow(bs, at + 8, 4);
  }

  lemma {:induction false} ReadIsBelow(bs: Bytes, at: nat, n: nat)
    ensures ReadLe(bs, at, n) < Pow256(n)
    decreases n
  {
    if n > 0 {
      ReadIsBelow(bs, at + 1, n - 1);
    }
  }

  /** In the section at `base`, each operand of the frame is located. */
  ghost predicate Operands(section: Bytes, base: nat, registers: Registers, slots: Addr -> Word, frame: seq<Addr>) {
    forall i: nat | i < |frame| :: Operand(section, base, registers, slots, frame, i)
  }

  ghost predicate Operand(
    section: Bytes, base: nat, registers: Registers, slots: Addr -> Word, frame: seq<Addr>, i: nat)
    requires i < |frame|
  {
    Locates(LocationAt(section, base + 16 + 12 * (2 + i)), registers, slots, frame[i])
  }

  /** The next location of the record, read as an address. */
  method NextAddress(p: SMRecordParser, ghost left: Word) returns (address: Word)
    requires p.Valid() && 0 < p.recordsRetrieved < p.numLocations
    requires LaidOut(LocationAt(p.bytes, p.recordBase + 16 + 12 * p.recordsRetrieved), p.registers, left)
    modifies p
    ensures p.Valid() && p.recordsRetrieved == old(p.recordsRetrieved) + 1 && p.numLocations == old(p.numLocations)
    ensures address == left
  {
    ghost var l := LocationAt(p.bytes, p.recordBase + 16 + 12 * p.recordsRetrieved);
    OffsetIs32(p.bytes, p.recordBase + 16 + 12 * p.recordsRetrieved);
    var value := p.NextValue();
    AddressIsRead(l, p.registers, left, value);
    address := Wrap(value);
  }

  /** The next address from the record is that of the next operand. */
  method NextOperand(p: SMRecordParser, ghost slots: Addr -> Word, ghost frame: seq<Addr>) returns (address: Word)
    requires p.Valid() && 2 <= p.recordsRetrieved < p.numLocations == 2 + |frame|
    requires Operands(p.bytes, p.recordBase, p.registers, slots, frame)
    modifies p
    ensures p.Valid() && p.recordsRetrieved == old(p.recordsRetrieved) + 1 && p.numLocations == old(p.numLocations)
    ensures address == Place(slots, frame[old(p.recordsRetrieved) - 2])
  {
    ghost var i := p.recordsRetrieved - 2;
    assert Operand(p.bytes, p.recordBase, p.registers, slots, frame, i);
    address := NextAddress(p, Place(slots, frame[i]));
  }

  /** One of the loops over parameters, locals and bound variables: an address from the record for each name. */
  method ReadSymbols(
    p: SMRecordParser, names: seq<string>, symbols: map<string, Word>,
    ghost slots: Addr -> Word, ghost frame: seq<Addr>, ghost from: nat, ghost t: Table)
    returns (symbols': map<string, Word>)
    requires p.Valid() && p.recordsRetrieved == 2 + from && from + |names| <= |frame| && p.numLocations == 2 + |frame|
    requires Operands(p.bytes, p.recordBase, p.registers, slots, frame) && symbols == PlaceAll(slots, t)
    modifies p
    ensures p.Valid() && p.recordsRetrieved == 2 + from + |names| && p.numLocations == old(p.numLocations)
    ensures symbols' == PlaceAll(slots, BindFrom(t, names, frame[from..from + |names|], 0))
  {
    ghost var addrs := frame[from..from + |names|];
    ghost var t' := t;
    symbols' := symbols;
    var i := 0;
    while i < |names|
      invariant 0 <= i <= |names|
      invariant p.Valid() && p.recordsRetrieved == 2 + from + i && p.numLocations == 2 + |frame|
      invariant symbols' == PlaceAll(slots, t') && BindFrom(t', names, addrs, i) == BindFrom(t, names, addrs, 0)
    {
      var address := NextOperand(p, slots, frame);
      PlaceEntry(slots, t', names[i], addrs[i]);
      symbols' := symbols'[names[i] := address];
      t' := t'[names[i] := addrs[i]];
      i := i + 1;
    }
  }

  /** The addresses of the instance variables of the object in `self`. */
  method AddInstanceVariables(
    o: Word, names: seq<string>, symbols: map<string, Word>, ghost slots: Addr -> Word, ghost t: Table)
    returns (symbols': map<string, Word>)
    requires symbols == PlaceAll(slots, t)
    ensures symbols' == PlaceAll(slots, Bind(t, names, Fields(o, IVAR_BASE, |names|)))
    ensures forall x | x in names :: x in symbols' && symbols'[x] == Wrap(o + 8 * (1 + Frames.Place(names, x)))
  {
    ghost var fields := Fields(o, IVAR_BASE, |names|);
    ghost var t' := t;
    symbols' := symbols;
    var i := 0;
    while i < |names|
      invariant 0 <= i <= |names|
      invariant symbols' == PlaceAll(slots, t') && BindFrom(t', names, fields, i) == BindFrom(t, names, fields, 0)
    {
      PlaceEntry(slots, t', names[i], fields[i]);
      symbols' := symbols'[names[i] := Wrap(o + 8 * (1 + i))];
      t' := t'[names[i] := fields[i]];
      i := i + 1;
    }
    BindIsForwards(t, names, fields);
    forall x | x in names ensures x in symbols' && symbols'[x] == Wrap(o + 8 * (1 + Frames.Place(names, x))) {
      VariableIsPlaced(slots, t, o, names, x);
    }
  }

  lemma VariableIsPlaced(slots: Addr -> Word, t: Table, o: Word, names: seq<string>, x: string)
    requires x in names
    ensures var symbols := PlaceAll(slots, Bind(t, names, Fields(o, IVAR_BASE, |names|)));
            x in symbols && symbols[x] == Wrap(o + 8 * (1 + Frames.Place(names, x)))
  {
    FieldAt(t, names, o, IVAR_BASE, x);
  }

  /** With one function entry and a small constant table, the one record is where the parser looks. */
  lemma RecordAddress(section: Bytes, s: Section)
    requires SectionFits(s) && Holds(section, 0, EncodeSection(s))
    requires |s.functions| == 1 && 8 * |s.constants| < 0x1_0000_0000 && |s.records| == 1
    ensures Holds(section, RecordsBase(ReadLe(section, 4, 4), ReadLe(section, 8, 4)), EncodeRecord(s.records[0]))
  {
    SectionRoundTrip(section, s);
    RecordsBaseIsRightExactlyWhen(section, s);
    HoldsSplit(section, 16 + |EncodeTables(s)|, EncodeRecord(s.records[0]), EncodeRecords(s.records[1..]));
  }

  lemma OperandLocations(
    section: Bytes, base: nat, r: Record, registers: Registers, slots: Addr -> Word, node: Word, frame: seq<Addr>)
    requires Describes(r, registers, slots, node, frame) && Holds(section, base, EncodeRecord(r))
    ensures ReadLe(section, base + 14, 2) == |r.locations|
    ensures LocationAt(section, base + 16) == r.locations[0] && LocationAt(section, base + 28) == r.locations[1]
    ensures Operands(section, base, registers, slots, frame)
  {
    RecordRoundTrip(section, base, r);
    assert LocationAt(section, base + 16 + 12 * 0) == r.locations[0];
    assert LocationAt(section, base + 16 + 12 * 1) == r.locations[1];
    forall i: nat | i < |frame|
      ensures Operand(section, base, registers, slots, frame, i)
    {
      assert LocationAt(section, base + 16 + 12 * (2 + i)) == r.locations[2 + i];
    }
  }

  /** The table after the variables of the frame have been entered. */
  function VariablesTable(t: Table, d: Closure, frame: seq<Addr>): Table
    requires |frame| == 2 + |d.params| + |d.decls| + |d.boundVars|
  {
    BoundTable(DeclsTable(ParamsTable(t, d, frame), d, frame), d, frame)
  }

  function ParamsTable(t: Table, d: Closure, frame: seq<Addr>): Table
    requires |frame| == 2 + |d.params| + |d.decls| + |d.boundVars|
  {
    BindFrom(t, d.params, frame[2..2 + |d.params|], 0)
  }

  function DeclsTable(t: Table, d: Closure, frame: seq<Addr>): Table
    requires |frame| == 2 + |d.params| + |d.decls| + |d.boundVars|
  {
    BindFrom(t, d.decls, frame[2 + |d.params|..2 + |d.params| + |d.decls|], 0)
  }

  function BoundTable(t: Table, d: Closure, frame: seq<Addr>): Table
    requires |frame| == 2 + |d.params| + |d.decls| + |d.boundVars|
  {
    BindFrom(t, d.boundVars, frame[2 + |d.params| + |d.decls|..2 + |d.params| + |d.decls| + |d.boundVars|], 0)
  }

  lemma RebuiltInOrder(w: World, d: Closure, st: State, frame: seq<Addr>)
    requires |frame| == 2 + |d.params| + |d.decls| + |d.boundVars|
    ensures var ivars := RebuiltIvars(w, st, frame[0], frame[1]);
            var t := Bind(map["self" := frame[0], "cmd" := frame[1]], ivars,
                          Fields(Load(st, frame[0]), IVAR_BASE, |ivars|));
            Rebuild(w, d, st, frame) == VariablesTable(t, d, frame)
  {
    var p := 2 + |d.params|;
    var q := p + |d.decls|;
    assert frame[q..q + |d.boundVars|] == frame[q..];
    var ivars := RebuiltIvars(w, st, frame[0], frame[1]);
    var t := Bind(map["self" := frame[0], "cmd" := frame[1]], ivars,
                  Fields(Load(st, frame[0]), IVAR_BASE, |ivars|));
    BindIsForwards(t, d.params, frame[2..p]);
    BindIsForwards(Bind(t, d.params, frame[2..p]), d.decls, frame[p..q]);
    BindIsForwards(Bind(Bind(t, d.params, frame[2..p]), d.decls, frame[p..q]), d.boundVars, frame[q..]);
  }

  method ReadVariables(
    parser: SMRecordParser, d: Closure, symbols: map<string, Word>,
    ghost slots: Addr -> Word, ghost frame: seq<Addr>, ghost t: Table)
    returns (symbols': map<string, Word>)
    requires |frame| == 2 + |d.params| + |d.decls| + |d.boundVars|
    requires parser.Valid() && parser.recordsRetrieved == 4 && parser.numLocations == 2 + |frame|
    requires Operands(parser.bytes, parser.recordBase, parser.registers, slots, frame)
    requires symbols == PlaceAll(slots, t)
    modifies parser
    ensures symbols' == PlaceAll(slots, VariablesTable(t, d, frame))
  {
    symbols' := ReadSymbols(parser, d.params, symbols, slots, frame, 2, t);
    symbols' := ReadInner(parser, d, symbols', slots, frame, ParamsTable(t, d, frame));
  }

  method ReadInner(
    parser: SMRecordParser, d: Closure, symbols: map<string, Word>,
    ghost slots: Addr -> Word, ghost frame: seq<Addr>, ghost t: Table)
    returns (symbols': map<string, Word>)
    requires |frame| == 2 + |d.params| + |d.decls| + |d.boundVars|
    requires parser.Valid() && parser.recordsRetrieved == 4 + |d.params| && parser.numLocations == 2 + |frame|
    requires Operands(parser.bytes, parser.recordBase, parser.registers, slots, frame)
    requires symbols == PlaceAll(slots, t)
    modifies parser
    ensures symbols' == PlaceAll(slots, BoundTable(DeclsTable(t, d, frame), d, frame))
  {
    symbols' := ReadSymbols(parser, d.decls, symbols, slots, frame, 2 + |d.params|, t);
    symbols' := ReadSymbols(
      parser, d.boundVars, symbols', slots, frame, 2 + |d.params| + |d.decls|, DeclsTable(t, d, frame));
  }

  /** The `self` and `cmd` operands, and through them the instance variables. */
  method ReadReceiver(
    parser: SMRecordParser, memory: Word -> Word, classOf: Word -> Word, w: World,
    ghost slots: Addr -> Word, ghost st: State, ghost frame: seq<Addr>)
    returns (symbols: map<string, Word>)
    requires |frame| >= 2
    requires parser.Valid() && parser.recordsRetrieved == 2 && parser.numLocations == 2 + |frame|
    requires Operands(parser.bytes, parser.recordBase, parser.registers, slots, frame)
    requires Shows(st, slots, memory, classOf, frame[0], frame[1])
    modifies parser
    ensures parser.Valid() && parser.recordsRetrieved == 4 && parser.numLocations == 2 + |frame|
    ensures var ivars := RebuiltIvars(w, st, frame[0], frame[1]);
            var t := Bind(map["self" := frame[0], "cmd" := frame[1]], ivars,
                          Fields(Load(st, frame[0]), IVAR_BASE, |ivars|));
            symbols == PlaceAll(slots, t)
  {
    var self := NextOperand(parser, slots, frame);
    var cmd := NextOperand(parser, slots, frame);
    symbols := map["self" := self, "cmd" := cmd];
    ghost var t: Table := map["self" := frame[0], "cmd" := frame[1]];
    assert symbols == PlaceAll(slots, t);
    if self != 0 && cmd != 0 {
      var o := memory(self);
      symbols := AddInstanceVariables(o, w.ivarNames(classOf(o)), symbols, slots, t);
    }
  }

  /** The frame's operands, from the third location on: `self` and `cmd`, then the variables. */
  method ReadFrame(
    parser: SMRecordParser, memory: Word -> Word, classOf: Word -> Word, w: World, d: Closure,
    ghost slots: Addr -> Word, ghost st: State, ghost frame: seq<Addr>)
    returns (symbols: map<string, Word>)
    requires |frame| == 2 + |d.params| + |d.decls| + |d.boundVars|
    requires parser.Valid() && parser.recordsRetrieved == 2 && parser.numLocations == 2 + |frame|
    requires Operands(parser.bytes, parser.recordBase, parser.registers, slots, frame)
    requires Shows(st, slots, memory, classOf, frame[0], frame[1])
    modifies parser
    ensures symbols == PlaceAll(slots, Rebuild(w, d, st, frame))
  {
    ghost var ivars := RebuiltIvars(w, st, frame[0], frame[1]);
    ghost var fields := Fields(Load(st, frame[0]), IVAR_BASE, |ivars|);
    symbols := ReadReceiver(parser, memory, classOf, w, slots, st, frame);
    RebuiltInOrder(w, d, st, frame);
    symbols := ReadVariables(
      parser, d, symbols, slots, frame, Bind(map["self" := frame[0], "cmd" := frame[1]], ivars, fields));
  }

  /** The address of the only record, when there is only one. */
  method RecordPointer(section: Bytes, ghost s: Section) returns (base: Option<nat>)
    requires SectionFits(s) && Holds(section, 0, EncodeSection(s))
    requires |s.functions| == 1 && 8 * |s.constants| < 0x1_0000_0000
    ensures |s.records| != 1 ==> base.None?
    ensures |s.records| == 1 ==> base.Some? && Holds(section, base.value, EncodeRecord(s.records[0]))
  {
    SectionRoundTrip(section, s);
    var smp := new StackMapParser(section);
    var records := smp.GetNumRecords();
    if records != 1 {
      return None;
    }
    RecordAddress(section, s);
    base := Some(smp.recordsBase);
  }

  /** The call nodes of a body have addresses of their own. */
  predicate DistinctNodes(sites: set<nat>, nodeAt: nat -> Word) {
    forall i, j | i in sites && j in sites && nodeAt(i) == nodeAt(j) :: i == j
  }

  /** `node` is the address of call `id` and of no other call of the body. */
  predicate NamesOnly(sites: set<nat>, nodeAt: nat -> Word, node: Word, id: nat) {
    forall site | site in sites :: node == nodeAt(site) <==> site == id
  }

  lemma NodeIsNamed(sites: set<nat>, nodeAt: nat -> Word, id: nat)
    requires id in sites && DistinctNodes(sites, nodeAt)
    ensures NamesOnly(sites, nodeAt, nodeAt(id), id)
  {
  }

  /** Result register and node: the first two locations of the record. */
  method ReadHeader(
    section: Bytes, base: nat, registers: Registers, ghost record: Record, ghost slots: Addr -> Word, ghost node: Word,
    ghost frame: seq<Addr>)
    returns (parser: SMRecordParser, returnRegister: int, resumed: Word)
    requires Holds(section, base, EncodeRecord(record)) && Describes(record, registers, slots, node, frame)
    ensures fresh(parser) && parser.Valid() && parser.recordsRetrieved == 2 && parser.numLocations == 2 + |frame|
    ensures Operands(parser.bytes, parser.recordBase, parser.registers, slots, frame)
    ensures returnRegister == record.locations[0].reg && resumed == node
  {
    OperandLocations(section, base, record, registers, slots, node, frame);
    parser := new SMRecordParser(base, section, registers);
    returnRegister := parser.NextValue();
    resumed := NextAddress(parser, node);
  }

  /**
   The side exit of call `id`: from a section with one record that describes the
   frame, the rebuilt table, name for name, and the node of that call and no
   other; from any other number of records, nothing.
   */
  method ReconstructInterpreterContext(
    section: Bytes, registers: Registers, memory: Word -> Word, classOf: Word -> Word, w: World, d: Closure,
    ghost s: Section, ghost slots: Addr -> Word, ghost nodeAt: nat -> Word, ghost id: nat,
    ghost st: State, ghost frame: seq<Addr>)
    returns (r: Option<Resumption>)
    requires SectionFits(s) && Holds(section, 0, EncodeSection(s))
    requires |s.functions| == 1 && 8 * |s.constants| < 0x1_0000_0000
    requires |frame| == 2 + |d.params| + |d.decls| + |d.boundVars|
    requires id in BodySites(d.body) && DistinctNodes(BodySites(d.body), nodeAt)
    requires |s.records| == 1 ==> Describes(s.records[0], registers, slots, nodeAt(id), frame)
    requires Shows(st, slots, memory, classOf, frame[0], frame[1])
    ensures |s.records| != 1 ==> r.None?
    ensures |s.records| == 1 ==>
              r.Some? && r.value.returnRegister == s.records[0].locations[0].reg
              && NamesOnly(BodySites(d.body), nodeAt, r.value.node, id)
              && r.value.symbols == PlaceAll(slots, Rebuild(w, d, st, frame))
  {
    var base := RecordPointer(section, s);
    if base.None? {
      return None;
    }
    var parser, returnRegister, node :=
      ReadHeader(section, base.value, registers, s.records[0], slots, nodeAt(id), frame);
    NodeIsNamed(BodySites(d.body), nodeAt, id);
    var symbols := ReadFrame(parser, memory, classOf, w, d, slots, st, frame);
    r := Some(Resumption(returnRegister, node, symbols));
  }
}
