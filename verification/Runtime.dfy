/**
 The state shared by the interpreter and by compiled code: storage, heap and
 call-site profiles, and the parts of the runtime that appear here as
 parameters.
 */
module Runtime {
  import opened Tagged
  import opened Ast

  /**
   Where a variable lives. `Field(o, i)` is the i-th word of object `o`, which is
   how instance variables and the bound variables of a closure are addressed;
   `Null` is a null entry of a symbol table.
   */
  datatype Addr =
    | Param(index: nat)
    | Local(index: nat)
    | SelfSlot
    | CmdSlot
    | Field(owner: Word, field: nat)
    | Global(name: string)
    | Null

  type Table = map<string, Addr>

  /** The first word of an object is its class. */
  type Heap = map<Word, seq<Word>>

  /** The profile of one call site; `cached` is a method slot, 0 when there is none. */
  datatype Site = Site(assumed: Word, alternative: Word, alternativeCount: nat, cached: nat)

  const FRESH_SITE := Site(0, 0, 0, 0)

  datatype State = State(mem: map<Addr, Word>, heap: Heap, sites: map<nat, Site>)

  datatype CallResult = Ret(value: Word, st: State) | Fault

  /**
   What the model takes as given: the callees (run through a method slot, a
   closure or an overloaded operator), method lookup, the class table and the
   allocator.
   */
  datatype World = World(
    invoke: (nat, State, Word, string, seq<Word>) -> CallResult,
    closure: (State, Word, seq<Word>) -> CallResult,
    overload: (ArithOp, State, Word, Word) -> CallResult,
    lookup: (Word, string) -> nat,
    allocate: Heap -> Word,
    classNamed: string -> Word,
    ivarNames: Word -> seq<string>,
    closurePointers: Closure -> (Word, Word))

  const SMALL_INT_CLASS: Word := 8
  const CLOSURE_CLASS: Word := 16
  const RECOMPILE_THRESHOLD := 10000

  /** The top symbol table, and below it the globals. */
  function Resolve(tab: Table, name: string): Addr {
    if name in tab then tab[name] else Global(name)
  }

  function AddressesOf(tab: Table, names: seq<string>): (s: seq<Addr>)
    ensures |s| == |names| && forall i | 0 <= i < |names| :: s[i] == Resolve(tab, names[i])
  {
    seq(|names|, i requires 0 <= i < |names| => Resolve(tab, names[i]))
  }

  function Load(st: State, a: Addr): Word {
    match a
    case Null => 0
    case Field(o, i) => if o in st.heap && i < |st.heap[o]| then st.heap[o][i] else 0
    case _ => if a in st.mem then st.mem[a] else 0
  }

  function Store(st: State, a: Addr, v: Word): State {
    match a
    case Null => st
    case Field(o, i) =>
      if o in st.heap && i < |st.heap[o]| then
        var fields: seq<Word> := st.heap[o][i := v];
        st.(heap := st.heap[o := fields])
      else st
    case _ => st.(mem := st.mem[a := v])
  }

  /** `setSymbol(name, value)`: without storage for the name, a global is created. */
  function SetSymbol(tab: Table, st: State, name: string, v: Word): State {
    var a := Resolve(tab, name);
    Store(st, if a.Null? then Global(name) else a, v)
  }

  function LookupSymbol(tab: Table, st: State, name: string): Word {
    Load(st, Resolve(tab, name))
  }

  /** `getClassFor` on a non-null object; 0 when the word is not the address of an object. */
  function ClassOf(heap: Heap, obj: Word): Word {
    if IsInteger(obj) then SMALL_INT_CLASS
    else if obj in heap && heap[obj] != [] then heap[obj][0]
    else 0
  }

  function SiteOf(st: State, id: nat): Site {
    if id in st.sites then st.sites[id] else FRESH_SITE
  }

  function SetSite(st: State, id: nat, site: Site): State {
    st.(sites := st.sites[id := site])
  }

  /* ---- The profile step of an interpreted call ---- */

  /** `Cached` calls through the cached slot, `Lookup` finds the method; `recompile` flags the running function. */
  datatype Profiled = Cached(site: Site) | Lookup(site: Site, recompile: bool)

  function Profile(s: Site, cls: Word): Profiled {
    if cls == s.assumed then
      var s' := s.(alternativeCount := 0);
      if s.cached != 0 then Cached(s') else Lookup(s', false)
    else if s.assumed == 0 then Lookup(s.(assumed := cls), false)
    else if cls == s.alternative then
      if s.alternativeCount + 1 > RECOMPILE_THRESHOLD
      then Lookup(Site(s.alternative, 0, 0, s.cached), true)
      else Lookup(s.(alternativeCount := s.alternativeCount + 1), false)
    else Lookup(s.(alternative := cls, alternativeCount := 1), false)
  }

  /* ---- Object creation ---- */

  function Zeros(n: nat): seq<Word> {
    seq(n, _ => 0)
  }

  /** The allocator has no address left that is not in use. */
  predicate MemoryFull(w: World, heap: Heap) {
    w.allocate(heap) in heap
  }

  /** `newObject`: the class pointer, then the instance variables, all null. */
  function NewInstance(w: World, st: State, cls: Word): (Word, State) {
    var o := w.allocate(st.heap);
    (o, st.(heap := st.heap[o := [cls] + Zeros(|w.ivarNames(cls)|)]))
  }

  /** The fields of a closure object before its bound variables: class, arity, invoke pointer, tree. */
  function ClosureHeader(w: World, c: Closure): seq<Word> {
    var (invoke, tree) := w.closurePointers(c);
    [CLOSURE_CLASS, Encode(|c.params|), invoke, tree]
  }

  const BOUND_BASE: nat := 4
}
