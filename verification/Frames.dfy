/**
 Symbol tables: the ones compiled code and the interpreter enter a body with,
 the operands a patchpoint records, and the table rebuilt from them on a side
 exit.
 */
module Frames {
  import opened Tagged
  import opened Ast
  import opened Runtime

  /**
   A running method or closure. A method is compiled once, for the class of one
   receiver, and runs on receivers of all classes that inherit it: `ivars` are the
   instance variables of the class it was compiled for, `own` those of its receiver.
   */
  datatype Activation =
    Activation(decl: Closure, isMethod: bool, self: Word, ivars: seq<string>, own: seq<string>)

  const IVAR_BASE: nat := 1

  /** Entering `names` in order, a later entry replacing an earlier one of the same name. */
  function Bind(tab: Table, names: seq<string>, addrs: seq<Addr>): (t: Table)
    requires |names| == |addrs|
    ensures forall x | x in names :: x in t
    decreases |names|
  {
    if names == [] then tab
    else Bind(tab, names[..|names| - 1], addrs[..|names| - 1])[names[|names| - 1] := addrs[|names| - 1]]
  }

  function Params(n: nat): (s: seq<Addr>)
    ensures |s| == n
  {
    seq(n, i requires 0 <= i < n => Param(i))
  }

  function Locals(n: nat): (s: seq<Addr>)
    ensures |s| == n
  {
    seq(n, i requires 0 <= i < n => Local(i))
  }

  function Fields(o: Word, base: nat, n: nat): (s: seq<Addr>)
    ensures |s| == n
  {
    seq(n, i requires 0 <= i < n => Field(o, base + i))
  }

  /* ---- The tables on entry ---- */

  /** `self`, `cmd`, parameters, locals, instance variables: the order of `compileMethod`. */
  function MethodSymbols(a: Activation): Table {
    var d := a.decl;
    var t := map["self" := SelfSlot, "cmd" := CmdSlot];
    var t1 := Bind(Bind(t, d.params, Params(|d.params|)), d.decls, Locals(|d.decls|));
    Bind(t1, a.ivars, Fields(a.self, IVAR_BASE, |a.ivars|))
  }

  /** `self`, parameters, locals, bound variables: the order of `compileClosure`. */
  function ClosureSymbols(a: Activation): Table {
    var d := a.decl;
    var t := map["self" := SelfSlot];
    var t1 := Bind(Bind(t, d.params, Params(|d.params|)), d.decls, Locals(|d.decls|));
    Bind(t1, d.boundVars, Fields(a.self, BOUND_BASE, |d.boundVars|))
  }

  function CompiledSymbols(a: Activation): Table {
    if a.isMethod then MethodSymbols(a) else ClosureSymbols(a)
  }

  /** Parameters, locals, `self`, `cmd`, instance variables: the order of `interpretMethod`. */
  function MethodTable(a: Activation): Table {
    var d := a.decl;
    var t := Bind(Bind(map[], d.params, Params(|d.params|)), d.decls, Locals(|d.decls|));
    Bind(t["self" := SelfSlot]["cmd" := CmdSlot], a.own, Fields(a.self, IVAR_BASE, |a.own|))
  }

  /** Parameters, bound variables, locals: the order of `interpretClosure`. */
  function ClosureTable(a: Activation): Table {
    var d := a.decl;
    var t := Bind(map[], d.params, Params(|d.params|));
    Bind(Bind(t, d.boundVars, Fields(a.self, BOUND_BASE, |d.boundVars|)), d.decls, Locals(|d.decls|))
  }

  function InterpretedTable(a: Activation): Table {
    if a.isMethod then MethodTable(a) else ClosureTable(a)
  }

  /* ---- The state on entry ---- */

  function StoreAll(st: State, addrs: seq<Addr>, vs: seq<Word>): State
    requires |addrs| == |vs|
    decreases |addrs|
  {
    if addrs == [] then st
    else Store(StoreAll(st, addrs[..|addrs| - 1], vs[..|addrs| - 1]), addrs[|addrs| - 1], vs[|addrs| - 1])
  }

  /** Receiver, selector, arguments and null locals in their slots. */
  function EntryState(a: Activation, sel: Word, args: seq<Word>, st: State): State
    requires |args| == |a.decl.params|
  {
    var st1 := Store(st, SelfSlot, a.self);
    var st2 := if a.isMethod then Store(st1, CmdSlot, Encode(Signed(sel))) else st1;
    var st3 := StoreAll(st2, Params(|args|), args);
    StoreAll(st3, Locals(|a.decl.decls|), Zeros(|a.decl.decls|))
  }

  /* ---- The patchpoint and the side exit ---- */

  predicate Redeclared(d: Closure, x: string) {
    x in d.params || x in d.decls || x in d.boundVars
  }

  /**
   Every variable has storage in the table of the function. One that has none, a
   global among the bound variables of a method, has no operand for a patchpoint,
   and a guarded call in such a function cannot be compiled.
   */
  predicate Stored(d: Closure, symbols: Table) {
    && (forall x | x in d.params :: x in symbols)
    && (forall x | x in d.decls :: x in symbols)
    && (forall x | x in d.boundVars :: x in symbols)
  }

  /** `self` and `cmd` are null constants where the table has none. */
  function Recorded(symbols: Table, name: string): Addr {
    if name in symbols then symbols[name] else Null
  }

  function RecordedAll(symbols: Table, names: seq<string>): (s: seq<Addr>)
    ensures |s| == |names|
  {
    seq(|names|, i requires 0 <= i < |names| => Recorded(symbols, names[i]))
  }

  /** The variable operands of a patchpoint: `self`, `cmd`, parameters, locals, bound variables. */
  function PatchpointFrame(d: Closure, symbols: Table): (f: seq<Addr>)
    requires Stored(d, symbols)
    ensures |f| == 2 + |d.params| + |d.decls| + |d.boundVars|
  {
    [Recorded(symbols, "self"), Recorded(symbols, "cmd")]
    + RecordedAll(symbols, d.params) + RecordedAll(symbols, d.decls) + RecordedAll(symbols, d.boundVars)
  }

  /** The instance variables the side exit finds: those of the object now in the `self` slot. */
  function RebuiltIvars(w: World, st: State, self: Addr, cmd: Addr): seq<string> {
    if self.Null? || cmd.Null? then [] else w.ivarNames(ClassOf(st.heap, Load(st, self)))
  }

  /** `reconstructInterpreterContext`: the table rebuilt from the recorded frame. */
  function Rebuild(w: World, d: Closure, st: State, frame: seq<Addr>): Table
    requires |frame| == 2 + |d.params| + |d.decls| + |d.boundVars|
  {
    var self, cmd := frame[0], frame[1];
    var p := 2 + |d.params|;
    var q := p + |d.decls|;
    var ivars := RebuiltIvars(w, st, self, cmd);
    var t := Bind(map["self" := self, "cmd" := cmd], ivars, Fields(Load(st, self), IVAR_BASE, |ivars|));
    Bind(Bind(Bind(t, d.params, frame[2..p]), d.decls, frame[p..q]), d.boundVars, frame[q..])
  }

  /* ---- Facts about binding ---- */

  /** Binding changes exactly the bound names. */
  lemma {:induction false} BindElsewhere(tab: Table, names: seq<string>, addrs: seq<Addr>, x: string)
    requires |names| == |addrs| && x !in names
    ensures x in Bind(tab, names, addrs) <==> x in tab
    ensures x in tab ==> Bind(tab, names, addrs)[x] == tab[x]
    decreases |names|
  {
    if names != [] {
      BindElsewhere(tab, names[..|names| - 1], addrs[..|names| - 1], x);
    }
  }

  /** A bound name gets the address at its last position. */
  lemma {:induction false} BindAt(tab: Table, names: seq<string>, addrs: seq<Addr>, x: string) returns (i: nat)
    requires |names| == |addrs| && x in names
    ensures i < |names| && names[i] == x && forall j | i < j < |names| :: names[j] != x
    ensures x in Bind(tab, names, addrs) && Bind(tab, names, addrs)[x] == addrs[i]
    decreases |names|
  {
    var n := |names| - 1;
    if names[n] == x {
      i := n;
    } else {
      assert x in names[..n];
      i := BindAt(tab, names[..n], addrs[..n], x);
    }
  }

  /** Where a name is listed last: a later variable of the same name hides an earlier one. */
  function Place(names: seq<string>, x: string): (i: nat)
    requires x in names
    ensures i < |names| && names[i] == x && forall j | i < j < |names| :: names[j] != x
  {
    if names[|names| - 1] == x then |names| - 1 else Place(names[..|names| - 1], x)
  }

  /** A name bound to a word of an object gets the word at its place. */
  lemma FieldAt(tab: Table, names: seq<string>, o: Word, base: nat, x: string)
    requires x in names
    ensures var t := Bind(tab, names, Fields(o, base, |names|)); x in t && t[x] == Field(o, base + Place(names, x))
  {
    var i := BindAt(tab, names, Fields(o, base, |names|), x);
    assert i == Place(names, x);
  }

  /** The table under a bound name does not matter. */
  lemma {:induction false} BindOver(t: Table, t': Table, names: seq<string>, addrs: seq<Addr>, x: string)
    requires |names| == |addrs| && x in names
    ensures x in Bind(t, names, addrs) && x in Bind(t', names, addrs)
    ensures Bind(t, names, addrs)[x] == Bind(t', names, addrs)[x]
    decreases |names|
  {
    var n := |names| - 1;
    if names[n] != x {
      assert x in names[..n];
      BindOver(t, t', names[..n], addrs[..n], x);
    }
  }

  /** Binding names to what a table records for them reproduces that table on those names. */
  lemma BindRecorded(tab: Table, symbols: Table, names: seq<string>, x: string)
    requires x in names
    ensures x in Bind(tab, names, RecordedAll(symbols, names))
    ensures Bind(tab, names, RecordedAll(symbols, names))[x] == Recorded(symbols, x)
  {
    var i := BindAt(tab, names, RecordedAll(symbols, names), x);
  }

  lemma FrameParts(d: Closure, symbols: Table)
    requires Stored(d, symbols)
    ensures var f := PatchpointFrame(d, symbols);
            var p := 2 + |d.params|;
            var q := p + |d.decls|;
            && f[0] == Recorded(symbols, "self") && f[1] == Recorded(symbols, "cmd")
            && f[2..p] == RecordedAll(symbols, d.params)
            && f[p..q] == RecordedAll(symbols, d.decls)
            && f[q..] == RecordedAll(symbols, d.boundVars)
  {
  }

  /* ---- Round trip of a method frame ---- */

  /** The instance variables that a side exit finds through the address recorded for `self`. */
  function ExitIvars(w: World, st: State, self: Addr): seq<string> {
    w.ivarNames(ClassOf(st.heap, Load(st, self)))
  }

  /** The method's table always has `self` and `cmd`. */
  lemma MethodHasReceiver(a: Activation)
    requires a.isMethod
    ensures "self" in MethodSymbols(a) && "cmd" in MethodSymbols(a)
    ensures !MethodSymbols(a)["self"].Null? && !MethodSymbols(a)["cmd"].Null?
  {
    MethodSymbolOf(a, "self");
    MethodSymbolOf(a, "cmd");
  }

  /**
   The names that keep their meaning at a side exit from a method: those that the
   frame records; of the others, an instance variable of the object now found through
   the address of `self` exactly when that object is the receiver and has the variable
   where the class that was compiled for has it; and any other name unless it is an
   instance variable of that class.
   */
  ghost predicate MethodNameFaithful(w: World, a: Activation, st: State, x: string)
    requires a.isMethod
  {
    MethodHasReceiver(a);
    var self := MethodSymbols(a)["self"];
    var found := ExitIvars(w, st, self);
    Redeclared(a.decl, x)
    || if x in found then x in a.ivars && Load(st, self) == a.self && Place(found, x) == Place(a.ivars, x)
       else x in a.ivars ==> x == "self" || x == "cmd"
  }

  /**
   When the receiver has the instance variables that were compiled for: what is found
   through the address of `self`, a variable of that name included, is still the
   receiver, or else no instance variable, of either object's class, is looked up by
   its own name.
   */
  ghost predicate MethodFrameFaithful(w: World, a: Activation, st: State)
    requires a.isMethod
  {
    MethodHasReceiver(a);
    var self := MethodSymbols(a)["self"];
    Load(st, self) == a.self
    || forall x | x in ExitIvars(w, st, self) || (x in a.ivars && x != "self" && x != "cmd") :: Redeclared(a.decl, x)
  }

  /** The compiler's entry for each kind of name. */
  lemma MethodSymbolOf(a: Activation, x: string)
    requires a.isMethod
    ensures var s := MethodSymbols(a);
            if x in a.ivars then x in s && s[x] == Field(a.self, IVAR_BASE + Place(a.ivars, x))
            else if x in a.decl.decls then x in s && s[x] == Local(Place(a.decl.decls, x))
            else if x in a.decl.params then x in s && s[x] == Param(Place(a.decl.params, x))
            else if x == "self" then x in s && s[x] == SelfSlot
            else if x == "cmd" then x in s && s[x] == CmdSlot
            else x !in s
  {
    var d := a.decl;
    var fields := Fields(a.self, IVAR_BASE, |a.ivars|);
    var t: Table := map["self" := SelfSlot, "cmd" := CmdSlot];
    var t1 := Bind(t, d.params, Params(|d.params|));
    var t2 := Bind(t1, d.decls, Locals(|d.decls|));
    if x in a.ivars {
      FieldAt(t2, a.ivars, a.self, IVAR_BASE, x);
    } else {
      BindElsewhere(t2, a.ivars, fields, x);
      ParamsAndLocals(t, d, x);
    }
  }

  /** Every variable of a method has storage exactly when none of its free variables is a global. */
  lemma StoredExactlyWhen(a: Activation)
    requires a.isMethod
    ensures Stored(a.decl, MethodSymbols(a))
            <==> forall x | x in a.decl.boundVars ::
                   x in a.ivars || x in a.decl.params || x in a.decl.decls || x == "self" || x == "cmd"
  {
    forall x
      ensures x in MethodSymbols(a)
              <==> x in a.ivars || x in a.decl.params || x in a.decl.decls || x == "self" || x == "cmd"
    {
      MethodSymbolOf(a, x);
    }
  }

  /** `func m() { return total; }`, where `total` is a global. */
  lemma GlobalIsNotStored(self: Word)
    ensures var a := Activation(Closure("m", [], [], ["total"], [Return(VarRef("total"))]), true, self, [], []);
            !Stored(a.decl, MethodSymbols(a))
  {
    var a := Activation(Closure("m", [], [], ["total"], [Return(VarRef("total"))]), true, self, [], []);
    MethodSymbolOf(a, "total");
    assert "total" in a.decl.boundVars;
  }

  lemma ParamsAt(t: Table, names: seq<string>, x: string)
    requires x in names
    ensures var t' := Bind(t, names, Params(|names|)); x in t' && t'[x] == Param(Place(names, x))
  {
    var i := BindAt(t, names, Params(|names|), x);
    assert i == Place(names, x);
  }

  lemma LocalsAt(t: Table, names: seq<string>, x: string)
    requires x in names
    ensures var t' := Bind(t, names, Locals(|names|)); x in t' && t'[x] == Local(Place(names, x))
  {
    var i := BindAt(t, names, Locals(|names|), x);
    assert i == Place(names, x);
  }

  /** Parameters and then locals on top of a table. */
  lemma ParamsAndLocals(t: Table, d: Closure, x: string)
    ensures var t2 := Bind(Bind(t, d.params, Params(|d.params|)), d.decls, Locals(|d.decls|));
            if x in d.decls then x in t2 && t2[x] == Local(Place(d.decls, x))
            else if x in d.params then x in t2 && t2[x] == Param(Place(d.params, x))
            else (x in t2 <==> x in t) && (x in t ==> t2[x] == t[x])
  {
    var t1 := Bind(t, d.params, Params(|d.params|));
    if x in d.decls {
      LocalsAt(t1, d.decls, x);
    } else {
      BindElsewhere(t1, d.decls, Locals(|d.decls|), x);
      if x in d.params {
        ParamsAt(t, d.params, x);
      } else {
        BindElsewhere(t, d.params, Params(|d.params|), x);
      }
    }
  }

  /** The rebuilt entry of a recorded name is what was recorded; other names come from the object in `self`. */
  lemma RebuiltEntry(w: World, d: Closure, symbols: Table, st: State, x: string)
    requires Stored(d, symbols)
    ensures var f := PatchpointFrame(d, symbols);
            var r := Rebuild(w, d, st, f);
            var ivars := RebuiltIvars(w, st, f[0], f[1]);
            && (Redeclared(d, x) ==> x in r && r[x] == Recorded(symbols, x))
            && (!Redeclared(d, x) && x in ivars ==>
                  x in r && r[x] == Field(Load(st, f[0]), IVAR_BASE + Place(ivars, x)))
            && (!Redeclared(d, x) && x !in ivars && x == "self" ==> x in r && r[x] == f[0])
            && (!Redeclared(d, x) && x !in ivars && x == "cmd" ==> x in r && r[x] == f[1])
            && (!Redeclared(d, x) && x !in ivars && x != "self" && x != "cmd" ==> x !in r)
  {
    var f := PatchpointFrame(d, symbols);
    FrameParts(d, symbols);
    var ivars := RebuiltIvars(w, st, f[0], f[1]);
    var fields := Fields(Load(st, f[0]), IVAR_BASE, |ivars|);
    var t: Table := map["self" := f[0], "cmd" := f[1]];
    var t1 := Bind(t, ivars, fields);
    var t2 := Bind(t1, d.params, RecordedAll(symbols, d.params));
    var t3 := Bind(t2, d.decls, RecordedAll(symbols, d.decls));
    if x in d.boundVars {
      BindRecorded(t3, symbols, d.boundVars, x);
    } else {
      BindElsewhere(t3, d.boundVars, RecordedAll(symbols, d.boundVars), x);
      if x in d.decls {
        BindRecorded(t2, symbols, d.decls, x);
      } else {
        BindElsewhere(t2, d.decls, RecordedAll(symbols, d.decls), x);
        if x in d.params {
          BindRecorded(t1, symbols, d.params, x);
        } else {
          BindElsewhere(t1, d.params, RecordedAll(symbols, d.params), x);
          if x in ivars {
            FieldAt(t, ivars, Load(st, f[0]), IVAR_BASE, x);
          } else {
            BindElsewhere(t, ivars, fields, x);
          }
        }
      }
    }
  }

  /** The table rebuilt on a side exit resolves a name as the compiler did exactly when the name is faithful. */
  lemma MethodFrameRoundTrip(w: World, a: Activation, st: State, x: string)
    requires a.isMethod && Stored(a.decl, MethodSymbols(a))
    ensures var s := MethodSymbols(a);
            var r := Rebuild(w, a.decl, st, PatchpointFrame(a.decl, s));
            Resolve(r, x) == Resolve(s, x) <==> MethodNameFaithful(w, a, st, x)
  {
    var s := MethodSymbols(a);
    FrameParts(a.decl, s);
    MethodHasReceiver(a);
    MethodSymbolOf(a, x);
    RebuiltEntry(w, a.decl, s, st, x);
  }

  /** On a receiver with the instance variables that were compiled for, all names are, whatever shadows what. */
  lemma SameVariablesAreFaithfulExactlyWhen(w: World, a: Activation, st: State)
    requires a.isMethod && a.ivars == w.ivarNames(ClassOf(st.heap, a.self))
    ensures (forall x :: MethodNameFaithful(w, a, st, x)) <==> MethodFrameFaithful(w, a, st)
  {
    MethodHasReceiver(a);
    var self := MethodSymbols(a)["self"];
    if !MethodFrameFaithful(w, a, st) {
      var x :| (x in ExitIvars(w, st, self) || (x in a.ivars && x != "self" && x != "cmd")) && !Redeclared(a.decl, x);
      assert !MethodNameFaithful(w, a, st, x);
    }
  }

  /* ---- Round trip of a closure frame ---- */

  lemma ClosureSymbolOf(a: Activation, x: string)
    requires !a.isMethod
    ensures var s := ClosureSymbols(a);
            if x in a.decl.boundVars then x in s && s[x] == Field(a.self, BOUND_BASE + Place(a.decl.boundVars, x))
            else if x in a.decl.decls then x in s && s[x] == Local(Place(a.decl.decls, x))
            else if x in a.decl.params then x in s && s[x] == Param(Place(a.decl.params, x))
            else if x == "self" then x in s && s[x] == SelfSlot
            else x !in s
  {
    var d := a.decl;
    var fields := Fields(a.self, BOUND_BASE, |d.boundVars|);
    var t: Table := map["self" := SelfSlot];
    var t2 := Bind(Bind(t, d.params, Params(|d.params|)), d.decls, Locals(|d.decls|));
    ParamsAndLocals(t, d, x);
    if x in d.boundVars {
      FieldAt(t2, d.boundVars, a.self, BOUND_BASE, x);
    } else {
      BindElsewhere(t2, d.boundVars, fields, x);
    }
  }

  lemma ClosureIsStored(a: Activation)
    requires !a.isMethod
    ensures Stored(a.decl, ClosureSymbols(a)) && "self" in ClosureSymbols(a)
  {
    forall x | Redeclared(a.decl, x) || x == "self" ensures x in ClosureSymbols(a) {
      ClosureSymbolOf(a, x);
    }
  }

  /**
   The names that keep their meaning in a closure: its variables, and otherwise all
   but `cmd`, for which a null is recorded. When the closure has a variable of that
   name, it is taken for a method's, and the instance variables found through
   `self` come in instead.
   */
  predicate ClosureNameFaithful(w: World, a: Activation, st: State, x: string)
    requires !a.isMethod
  {
    ClosureIsStored(a);
    Redeclared(a.decl, x)
    || if Redeclared(a.decl, "cmd") then x !in ExitIvars(w, st, ClosureSymbols(a)["self"]) else x != "cmd"
  }

  lemma ClosureFrameRoundTrip(w: World, a: Activation, st: State, x: string)
    requires !a.isMethod
    ensures Stored(a.decl, ClosureSymbols(a))
    ensures var s := ClosureSymbols(a);
            var r := Rebuild(w, a.decl, st, PatchpointFrame(a.decl, s));
            Resolve(r, x) == Resolve(s, x) <==> ClosureNameFaithful(w, a, st, x)
  {
    var s := ClosureSymbols(a);
    ClosureIsStored(a);
    FrameParts(a.decl, s);
    ClosureSymbolOf(a, "self");
    ClosureSymbolOf(a, "cmd");
    ClosureSymbolOf(a, x);
    RebuiltEntry(w, a.decl, s, st, x);
  }

  /* ---- The interpreter's tables and the compiler's ---- */

  /**
   The names on which a method's tables agree: an instance variable exactly when both
   classes, that of the receiver and the one compiled for, have it in the same place;
   any other name unless it is `self` or `cmd`, redeclared as a parameter or local: the
   interpreter then lets the receiver and the selector win, and compiled code the
   variable.
   */
  predicate MethodNameCommon(a: Activation, x: string) {
    if x in a.ivars || x in a.own then x in a.ivars && x in a.own && Place(a.ivars, x) == Place(a.own, x)
    else (x != "self" && x != "cmd") || (x !in a.decl.params && x !in a.decl.decls)
  }

  lemma MethodTablesAgree(a: Activation, x: string)
    requires a.isMethod
    ensures Resolve(MethodTable(a), x) == Resolve(MethodSymbols(a), x) <==> MethodNameCommon(a, x)
  {
    var d := a.decl;
    var s0: Table := map["self" := SelfSlot, "cmd" := CmdSlot];
    var t2 := Bind(Bind(map[], d.params, Params(|d.params|)), d.decls, Locals(|d.decls|));
    var t3 := t2["self" := SelfSlot]["cmd" := CmdSlot];
    MethodSymbolOf(a, x);
    TwoLayers(s0, map[], d, x);
    ParamsAndLocals(s0, d, x);
    ParamsAndLocals(map[], d, x);
    if x in a.own {
      FieldAt(t3, a.own, a.self, IVAR_BASE, x);
    } else {
      BindElsewhere(t3, a.own, Fields(a.self, IVAR_BASE, |a.own|), x);
      if x !in a.ivars {
        BindElsewhere(
          Bind(Bind(s0, d.params, Params(|d.params|)), d.decls, Locals(|d.decls|)), a.ivars,
          Fields(a.self, IVAR_BASE, |a.ivars|), x);
      }
    }
  }

  /**
   Compiled for a class and run on a receiver of a subclass, which lists the inherited
   variables first: the tables differ also on every variable that the subclass adds.
   */
  lemma SubclassTablesAgree(a: Activation, x: string)
    requires a.isMethod && a.ivars <= a.own
    ensures Resolve(MethodTable(a), x) == Resolve(MethodSymbols(a), x)
            <==> x !in a.own[|a.ivars|..]
                 && (x in a.ivars || (x != "self" && x != "cmd") || (x !in a.decl.params && x !in a.decl.decls))
  {
    MethodTablesAgree(a, x);
    assert a.own == a.ivars + a.own[|a.ivars|..];
    if x in a.own[|a.ivars|..] {
      var j :| |a.ivars| <= j < |a.own| && a.own[j] == x;
      assert Place(a.own, x) >= j;
    } else if x in a.ivars {
      assert a.own[Place(a.own, x)] == a.ivars[Place(a.own, x)];
    }
  }

  /** `func m(cmd) { return cmd; }` returns the selector when interpreted and its argument when compiled. */
  lemma ParameterNamedCmd(self: Word)
    ensures var a := Activation(Closure("m", ["cmd"], [], [], [Return(VarRef("cmd"))]), true, self, [], []);
            Resolve(MethodTable(a), "cmd") == CmdSlot && Resolve(MethodSymbols(a), "cmd") == Param(0)
  {
    var names := ["cmd"];
    assert names[..0] == [] && Params(1) == [Param(0)] && Params(1)[..0] == [];
  }

  /** Parameters and locals on top of two tables: equal where bound, the tables themselves elsewhere. */
  lemma TwoLayers(s0: Table, t0: Table, d: Closure, x: string)
    ensures var s2 := Bind(Bind(s0, d.params, Params(|d.params|)), d.decls, Locals(|d.decls|));
            var t2 := Bind(Bind(t0, d.params, Params(|d.params|)), d.decls, Locals(|d.decls|));
            if x in d.params || x in d.decls then x in s2 && x in t2 && s2[x] == t2[x]
            else
              && (x in s2 <==> x in s0) && (x in t2 <==> x in t0)
              && (x in s0 ==> s2[x] == s0[x]) && (x in t0 ==> t2[x] == t0[x])
  {
    var s1 := Bind(s0, d.params, Params(|d.params|));
    var t1 := Bind(t0, d.params, Params(|d.params|));
    if x in d.decls {
      BindOver(s1, t1, d.decls, Locals(|d.decls|), x);
    } else {
      BindElsewhere(s1, d.decls, Locals(|d.decls|), x);
      BindElsewhere(t1, d.decls, Locals(|d.decls|), x);
      if x in d.params {
        BindOver(s0, t0, d.params, Params(|d.params|), x);
      } else {
        BindElsewhere(s0, d.params, Params(|d.params|), x);
        BindElsewhere(t0, d.params, Params(|d.params|), x);
      }
    }
  }

  /** No bound variable is a parameter or a local: what `check` establishes. */
  predicate BoundApart(d: Closure) {
    forall x | x in d.boundVars :: x !in d.params && x !in d.decls
  }

  /** A closure's tables differ on `self` alone, which only compiled code binds. */
  lemma ClosureTablesAgree(a: Activation, x: string)
    requires !a.isMethod && BoundApart(a.decl)
    ensures Resolve(ClosureTable(a), x) == Resolve(ClosureSymbols(a), x)
            <==> x != "self" || Redeclared(a.decl, "self")
  {
    var d := a.decl;
    var fields := Fields(a.self, BOUND_BASE, |d.boundVars|);
    var s0: Table := map["self" := SelfSlot];
    var s2 := Bind(Bind(s0, d.params, Params(|d.params|)), d.decls, Locals(|d.decls|));
    var t1 := Bind(map[], d.params, Params(|d.params|));
    var t2 := Bind(t1, d.boundVars, fields);
    TwoLayers(s0, map[], d, x);
    if x in d.boundVars {
      BindOver(s2, t1, d.boundVars, fields, x);
      BindElsewhere(t2, d.decls, Locals(|d.decls|), x);
    } else {
      BindElsewhere(s2, d.boundVars, fields, x);
      BindElsewhere(t1, d.boundVars, fields, x);
      if x in d.decls {
        BindOver(t2, t1, d.decls, Locals(|d.decls|), x);
      } else {
        BindElsewhere(t2, d.decls, Locals(|d.decls|), x);
        BindElsewhere(t1, d.decls, Locals(|d.decls|), x);
      }
    }
  }
}
