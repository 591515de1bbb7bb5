/**
 Selectors, classes and method lookup: numbers stand for names one to one, and
 the lookup along the superclass chain finds the nearest definition of a name.
 */
module MethodLookup {
  import opened Ast

  /* ---- Selectors ---- */

  predicate DistinctNames(names: seq<string>) {
    forall i, j | 0 <= i < j < |names| :: names[i] != names[j]
  }

  /** Registered names and the numbers from 1 on correspond one to one. */
  predicate OneToOne(selectors: map<string, nat>, selNames: seq<string>) {
    && |selNames| == |selectors| + 1
    && (forall n | n in selectors :: 0 < selectors[n] < |selNames| && selNames[selectors[n]] == n)
    && (forall i | 0 < i < |selNames| :: selNames[i] in selectors && selectors[selNames[i]] == i)
  }

  lemma RegisterKeepsOneToOne(selectors: map<string, nat>, selNames: seq<string>, name: string)
    requires OneToOne(selectors, selNames) && name !in selectors
    ensures OneToOne(selectors[name := |selectors| + 1], selNames + [name])
  {
    var s', n' := selectors[name := |selectors| + 1], selNames + [name];
    assert s'.Keys == selectors.Keys + {name};
    assert |s'| == |s'.Keys| == |selectors.Keys| + 1;
    forall i | 0 < i < |n'| ensures n'[i] in s' && s'[n'[i]] == i {
      if i < |selNames| {
        assert n'[i] == selNames[i] && selNames[i] in selectors;
      }
    }
  }

  lemma NextName(names: seq<string>, i: nat)
    requires DistinctNames(names) && i < |names|
    ensures names[..i + 1] == names[..i] + [names[i]] && names[i] !in names[..i]
    ensures forall n :: n in names[..i + 1] <==> n in names[..i] || n == names[i]
  {
  }

  method RegisterStatics(statics: seq<string>) returns (selectors: map<string, nat>, selNames: seq<string>)
    requires DistinctNames(statics)
    ensures OneToOne(selectors, selNames) && selNames == ["<invalid>"] + statics
    ensures forall n :: n in selectors <==> n in statics
  {
    selectors, selNames := map[], ["<invalid>"];
    var i := 0;
    while i < |statics|
      invariant 0 <= i <= |statics| && OneToOne(selectors, selNames) && |selectors| == i
      invariant forall n :: n in selectors <==> n in statics[..i]
      invariant selNames == ["<invalid>"] + statics[..i]
    {
      NextName(statics, i);
      RegisterKeepsOneToOne(selectors, selNames, statics[i]);
      selectors := selectors[statics[i] := i + 1];
      selNames := selNames + [statics[i]];
      i := i + 1;
    }
    assert statics[..i] == statics;
  }

  /* ---- Classes ---- */

  datatype Method = Method(name: string, selector: nat)

  /** Classes are numbered in the order of their creation; `superclass` is the class its name meant then. */
  datatype Class = Class(superclass: Option<nat>, methods: seq<Method>, ivars: seq<string>)

  type Classes = seq<Class>

  /** Superclasses were created earlier, so chains end; a class's instance variables begin with its superclass's. */
  ghost predicate WellFounded(cs: Classes) {
    forall c: nat | c < |cs| && cs[c].superclass.Some? ::
      cs[c].superclass.value < c && cs[cs[c].superclass.value].ivars <= cs[c].ivars
  }

  /** Methods carry the selector of their name. */
  predicate Registered(cs: Classes, selectors: map<string, nat>) {
    forall k: nat | k < |cs| :: AllRegistered(cs[k].methods, selectors)
  }

  predicate AllRegistered(ms: seq<Method>, selectors: map<string, nat>) {
    forall i: nat | i < |ms| :: ms[i].name in selectors && selectors[ms[i].name] == ms[i].selector
  }

  /** The class and the superclasses it inherits from, nearest first. */
  function Chain(cs: Classes, c: nat): seq<nat>
    requires WellFounded(cs) && c < |cs|
    decreases c
  {
    [c] + if cs[c].superclass.None? then [] else Chain(cs, cs[c].superclass.value)
  }

  /** Names keep their numbers when more are registered. */
  predicate Keeps(selectors: map<string, nat>, selectors': map<string, nat>) {
    forall n | n in selectors :: n in selectors' && selectors'[n] == selectors[n]
  }

  lemma RegisteredStays(cs: Classes, selectors: map<string, nat>, selectors': map<string, nat>)
    requires Registered(cs, selectors) && Keeps(selectors, selectors')
    ensures Registered(cs, selectors')
  {
    forall k: nat | k < |cs| ensures AllRegistered(cs[k].methods, selectors') {
      assert AllRegistered(cs[k].methods, selectors);
    }
  }

  predicate WellSelected(statics: seq<string>, selectors: map<string, nat>, selNames: seq<string>) {
    && statics != [] && DistinctNames(statics)
    && if selectors == map[] then selNames == [] else OneToOne(selectors, selNames)
  }

  ghost predicate WellClassed(cs: Classes, selectors: map<string, nat>, table: map<string, nat>) {
    WellFounded(cs) && Registered(cs, selectors) && forall n | n in table :: table[n] < |cs|
  }

  lemma NewNameKeeps(
    cs: Classes, table: map<string, nat>, statics: seq<string>, selectors: map<string, nat>, selNames: seq<string>,
    name: string)
    requires WellSelected(statics, selectors, selNames) && WellClassed(cs, selectors, table)
    requires selectors != map[] && name !in selectors
    ensures var selectors' := selectors[name := |selectors| + 1];
            WellSelected(statics, selectors', selNames + [name]) && WellClassed(cs, selectors', table)
  {
    RegisterKeepsOneToOne(selectors, selNames, name);
    RegisteredStays(cs, selectors, selectors[name := |selectors| + 1]);
  }

  /** The superclass of a declaration, if its name is known. */
  function ParentIn(table: map<string, nat>, superclass: Option<string>): Option<nat> {
    if superclass.Some? && superclass.value in table then Some(table[superclass.value]) else None
  }

  function IvarsOf(cs: Classes, parent: Option<nat>): seq<string> {
    if parent.Some? && parent.value < |cs| then cs[parent.value].ivars else []
  }

  /** The selector table and the class table of the runtime. */
  class Tables {
    const statics: seq<string>
    var selectors: map<string, nat>
    var selNames: seq<string>
    var classes: Classes
    var classTable: map<string, nat>

    /** What every sequence of lookups and declarations keeps. */
    ghost predicate Valid()
      reads this
    {
      WellSelected(statics, selectors, selNames) && WellClassed(classes, selectors, classTable)
    }

    constructor (statics: seq<string>)
      requires statics != [] && DistinctNames(statics)
      ensures Valid() && selectors == map[] && classes == [] && this.statics == statics
    {
      this.statics, selectors, selNames := statics, map[], [];
      classes, classTable := [], map[];
    }

    /**
     The number of a name: an old name keeps its number, a new one gets a number
     of its own, and no other name changes. The first call registers the runtime's own.
     */
    method LookupSelector(name: string) returns (sel: nat)
      requires Valid()
      modifies this`selectors, this`selNames
      ensures Valid() && name in selectors && selectors[name] == sel
      ensures Keeps(old(selectors), selectors)
      ensures forall n :: n in selectors <==>
                n == name || if old(selectors) == map[] then n in statics else n in old(selectors)
    {
      RegisterFirst();
      if name in selectors {
        sel := selectors[name];
      } else {
        NewNameKeeps(classes, classTable, statics, selectors, selNames, name);
        sel := |selectors| + 1;
        selectors := selectors[name := sel];
        selNames := selNames + [name];
      }
    }

    /** The runtime's own selectors are registered before anything else. */
    method RegisterFirst()
      requires Valid()
      modifies this`selectors, this`selNames
      ensures Valid() && selectors != map[] && Keeps(old(selectors), selectors)
      ensures forall n :: n in selectors <==> if old(selectors) == map[] then n in statics else n in old(selectors)
    {
      if selectors == map[] {
        ghost var before := selectors;
        selectors, selNames := RegisterStatics(statics);
        assert statics[0] in selectors;
        RegisteredStays(classes, before, selectors);
      }
    }

    /** The method list of a class declaration: every name is looked up, and registered if it is new. */
    method RegisterMethods(names: seq<string>) returns (methods: seq<Method>)
      requires Valid()
      modifies this`selectors, this`selNames
      ensures Valid() && Keeps(old(selectors), selectors)
      ensures |methods| == |names| && AllRegistered(methods, selectors)
      ensures forall i | 0 <= i < |names| :: methods[i].name == names[i]
    {
      methods := [];
      var i := 0;
      while i < |names|
        invariant 0 <= i <= |names| && |methods| == i
        invariant Valid() && Keeps(old(selectors), selectors)
        invariant AllRegistered(methods, selectors)
        invariant forall j | 0 <= j < i :: methods[j].name == names[j]
      {
        var sel := LookupSelector(names[i]);
        methods := methods + [Method(names[i], sel)];
        i := i + 1;
      }
    }

    /** A class declaration: an unknown superclass counts as none, and the name is bound to the new class. */
    method Declare(name: string, superclass: Option<string>, methodNames: seq<string>, ivars: seq<string>)
      returns (methods: seq<Method>)
      requires Valid()
      modifies this
      ensures Valid() && Keeps(old(selectors), selectors)
      ensures classTable == old(classTable)[name := |old(classes)|]
      ensures var parent := ParentIn(old(classTable), superclass);
              classes == old(classes) + [Class(parent, methods, IvarsOf(old(classes), parent) + ivars)]
      ensures |methods| == |methodNames| && forall i | 0 <= i < |methodNames| :: methods[i].name == methodNames[i]
      ensures var c := |old(classes)|;
              if superclass.Some? && superclass.value in old(classTable) then
                var p := old(classTable)[superclass.value];
                && p < c && old(WellFounded(classes))
                && Chain(classes, c) == [c] + Chain(old(classes), p)
                && classes[c].ivars == old(classes)[p].ivars + ivars
              else Chain(classes, c) == [c] && classes[c].ivars == ivars
    {
      methods := RegisterMethods(methodNames);
      var parent := ParentIn(classTable, superclass);
      AppendKeeps(classes, selectors, classTable, name, Class(parent, methods, IvarsOf(classes, parent) + ivars));
      classTable := classTable[name := |classes|];
      classes := classes + [Class(parent, methods, IvarsOf(classes, parent) + ivars)];
      if parent.Some? {
        ChainStays(old(classes), classes, parent.value);
      }
    }

    /** The linear search: class by class up the chain, method by method. */
    method MethodForSelector(c: nat, selector: nat) returns (r: Option<(nat, nat)>)
      requires Valid() && c < |classes|
      ensures r == Find(classes, c, selector)
    {
      var cls: Option<nat> := Some(c);
      while cls.Some?
        invariant cls.Some? ==> cls.value < |classes|
        invariant Find(classes, c, selector) == if cls.Some? then Find(classes, cls.value, selector) else None
        decreases if cls.Some? then cls.value + 1 else 0
      {
        var methods := classes[cls.value].methods;
        var i := 0;
        while i < |methods|
          invariant 0 <= i <= |methods| && forall j | 0 <= j < i :: methods[j].selector != selector
          invariant FirstOf(methods, selector, 0) == FirstOf(methods, selector, i)
        {
          if methods[i].selector == selector {
            return Some((cls.value, i));
          }
          i := i + 1;
        }
        cls := classes[cls.value].superclass;
      }
      r := None;
    }

    /**
     Dispatch on a name, as a call performs it: the selector, then the search. It is
     dispatch by name, after every sequence of lookups and declarations.
     */
    method Dispatch(c: nat, name: string) returns (r: Option<(nat, nat)>)
      requires Valid() && c < |classes|
      modifies this`selectors, this`selNames
      ensures Valid() && NearestByName(classes, c, name, r)
    {
      var sel := LookupSelector(name);
      NearestDefinitionWins(classes, c, selectors, selNames, name);
      r := MethodForSelector(c, sel);
    }
  }

  /** Declarations leave the chains of earlier classes alone. */
  lemma {:induction false} ChainStays(cs: Classes, cs': Classes, c: nat)
    requires WellFounded(cs) && WellFounded(cs') && cs <= cs' && c < |cs|
    ensures Chain(cs', c) == Chain(cs, c)
    decreases c
  {
    assert cs'[c] == cs[c];
    if cs[c].superclass.Some? {
      ChainStays(cs, cs', cs[c].superclass.value);
    }
  }

  lemma AppendKeeps(cs: Classes, selectors: map<string, nat>, table: map<string, nat>, name: string, c: Class)
    requires WellClassed(cs, selectors, table) && AllRegistered(c.methods, selectors)
    requires c.superclass.Some? ==> c.superclass.value < |cs| && cs[c.superclass.value].ivars <= c.ivars
    ensures WellClassed(cs + [c], selectors, table[name := |cs|])
  {
    var cs' := cs + [c];
    forall k: nat | k < |cs'| ensures AllRegistered(cs'[k].methods, selectors) {
      if k < |cs| {
        assert AllRegistered(cs[k].methods, selectors);
      }
    }
  }

  function FirstOf(methods: seq<Method>, selector: nat, from: nat): Option<nat>
    requires from <= |methods|
    decreases |methods| - from
  {
    if from == |methods| then None
    else if methods[from].selector == selector then Some(from)
    else FirstOf(methods, selector, from + 1)
  }

  function Find(cs: Classes, c: nat, selector: nat): Option<(nat, nat)>
    requires WellFounded(cs) && c < |cs|
    decreases c
  {
    match FirstOf(cs[c].methods, selector, 0)
    case Some(i) => Some((c, i))
    case None => if cs[c].superclass.None? then None else Find(cs, cs[c].superclass.value, selector)
  }

  /* ---- Dispatch by selector is dispatch by name ---- */

  /** Class `k` has a method called `name`. */
  predicate Defines(cs: Classes, k: nat, name: string)
    requires k < |cs|
  {
    exists i | 0 <= i < |cs[k].methods| :: cs[k].methods[i].name == name
  }

  lemma {:induction false} FirstOfIsFirst(methods: seq<Method>, selector: nat, from: nat)
    requires from <= |methods|
    ensures match FirstOf(methods, selector, from)
            case Some(i) =>
              from <= i < |methods| && methods[i].selector == selector
              && forall j | from <= j < i :: methods[j].selector != selector
            case None => forall j | from <= j < |methods| :: methods[j].selector != selector
    decreases |methods| - from
  {
    if from < |methods| && methods[from].selector != selector {
      FirstOfIsFirst(methods, selector, from + 1);
    }
  }

  /** In the chain, `k` comes after classes that do not define the name. */
  predicate NearestIn(cs: Classes, chain: seq<nat>, name: string, k: nat) {
    exists d | 0 <= d < |chain| ::
      chain[d] == k && forall e | 0 <= e < d :: chain[e] < |cs| && !Defines(cs, chain[e], name)
  }

  /** The first method of that name in the nearest class of the chain that has one; none when no class has one. */
  ghost predicate NearestByName(cs: Classes, c: nat, name: string, r: Option<(nat, nat)>)
    requires WellFounded(cs) && c < |cs|
  {
    match r
    case None => forall k | k in Chain(cs, c) :: k < |cs| && !Defines(cs, k, name)
    case Some((k, i)) =>
      && k < |cs| && i < |cs[k].methods| && cs[k].methods[i].name == name
      && (forall j | 0 <= j < i :: cs[k].methods[j].name != name)
      && NearestIn(cs, Chain(cs, c), name, k)
  }

  lemma NearestBehind(cs: Classes, c: nat, rest: seq<nat>, name: string, k: nat)
    requires c < |cs| && !Defines(cs, c, name) && NearestIn(cs, rest, name, k)
    ensures NearestIn(cs, [c] + rest, name, k)
  {
    var d :| 0 <= d < |rest| && rest[d] == k && forall e | 0 <= e < d :: rest[e] < |cs| && !Defines(cs, rest[e], name);
    var chain := [c] + rest;
    assert chain[d + 1] == k;
    forall e | 0 <= e < d + 1 ensures chain[e] < |cs| && !Defines(cs, chain[e], name) {
      if e > 0 {
        assert chain[e] == rest[e - 1];
      }
    }
  }

  /**
   Looking a registered name up by its number finds the first method of that name
   in the nearest class of the chain that has one, and nothing exactly when no
   class of the chain has one.
   */
  lemma {:induction false} NearestDefinitionWins(
    cs: Classes, c: nat, selectors: map<string, nat>, selNames: seq<string>, name: string)
    requires WellFounded(cs) && c < |cs| && Registered(cs, selectors) && OneToOne(selectors, selNames)
    requires name in selectors
    ensures NearestByName(cs, c, name, Find(cs, c, selectors[name]))
    decreases c
  {
    var s := selectors[name];
    FirstOfIsFirst(cs[c].methods, s, 0);
    SelectorsAreNames(cs, c, selectors, selNames, name);
    if FirstOf(cs[c].methods, s, 0).Some? {
      assert Chain(cs, c)[0] == c;
    } else if cs[c].superclass.Some? {
      var p := cs[c].superclass.value;
      NearestDefinitionWins(cs, p, selectors, selNames, name);
      var found := Find(cs, p, s);
      if found.Some? {
        NearestBehind(cs, c, Chain(cs, p), name, found.value.0);
      }
    }
  }

  /** With one number for each name, having the number is having the name. */
  lemma SelectorsAreNames(cs: Classes, c: nat, selectors: map<string, nat>, selNames: seq<string>, name: string)
    requires c < |cs| && Registered(cs, selectors) && OneToOne(selectors, selNames) && name in selectors
    ensures forall i | 0 <= i < |cs[c].methods| ::
              cs[c].methods[i].selector == selectors[name] <==> cs[c].methods[i].name == name
  {
    assert AllRegistered(cs[c].methods, selectors);
    forall i | 0 <= i < |cs[c].methods|
      ensures cs[c].methods[i].selector == selectors[name] <==> cs[c].methods[i].name == name
    {
      assert selNames[selectors[name]] == name;
      assert selNames[cs[c].methods[i].selector] == cs[c].methods[i].name;
    }
  }

  /* ---- Inheritance ---- */

  /** What dispatch finds is defined in a class of the chain, after classes that do not define the name. */
  lemma NearestIsDefined(cs: Classes, c: nat, name: string, r: Option<(nat, nat)>) returns (d: nat)
    requires WellFounded(cs) && c < |cs| && NearestByName(cs, c, name, r)
    ensures r.Some? ==>
              && d < |Chain(cs, c)| && Chain(cs, c)[d] == r.value.0 < |cs| && Defines(cs, r.value.0, name)
              && forall e | 0 <= e < d :: Chain(cs, c)[e] < |cs| && !Defines(cs, Chain(cs, c)[e], name)
  {
    d := 0;
    if r.Some? {
      var chain := Chain(cs, c);
      d :| d < |chain| && chain[d] == r.value.0
           && forall e | 0 <= e < d :: chain[e] < |cs| && !Defines(cs, chain[e], name);
      assert cs[r.value.0].methods[r.value.1].name == name;
    }
  }

  /** Dispatch by name has one answer. */
  lemma NearestIsUnique(cs: Classes, c: nat, name: string, r: Option<(nat, nat)>, r': Option<(nat, nat)>)
    requires WellFounded(cs) && c < |cs| && NearestByName(cs, c, name, r) && NearestByName(cs, c, name, r')
    ensures r == r'
  {
    var d := NearestIsDefined(cs, c, name, r);
    var d' := NearestIsDefined(cs, c, name, r');
  }

  /** A class that does not define a name answers what its superclass answers. */
  lemma NearestOfSuperclass(cs: Classes, c: nat, p: nat, name: string, r: Option<(nat, nat)>)
    requires WellFounded(cs) && c < |cs| && p < |cs| && Chain(cs, c) == [c] + Chain(cs, p)
    requires !Defines(cs, c, name) && NearestByName(cs, c, name, r)
    ensures NearestByName(cs, p, name, r)
  {
    var chain, rest := Chain(cs, c), Chain(cs, p);
    match r
    case None =>
      forall k | k in rest ensures k < |cs| && !Defines(cs, k, name) {
        assert k in chain;
      }
    case Some((k, i)) =>
      var d := NearestIsDefined(cs, c, name, r);
      assert rest[d - 1] == k;
      forall e | 0 <= e < d - 1 ensures rest[e] < |cs| && !Defines(cs, rest[e], name) {
        assert chain[e + 1] == rest[e];
      }
  }

  /** A class that defines a name answers with the first of its own methods of that name. */
  lemma NearestIsOwn(cs: Classes, c: nat, name: string, r: Option<(nat, nat)>)
    requires WellFounded(cs) && c < |cs| && Defines(cs, c, name) && NearestByName(cs, c, name, r)
    ensures r.Some? && r.value.0 == c
  {
    var chain := Chain(cs, c);
    assert chain[0] == c && c in chain;
    var d := NearestIsDefined(cs, c, name, r);
  }

  lemma DefinesItsNames(cs: Classes, c: nat, names: seq<string>, name: string)
    requires c < |cs| && |cs[c].methods| == |names| && forall i | 0 <= i < |names| :: cs[c].methods[i].name == names[i]
    ensures Defines(cs, c, name) <==> name in names
  {
    if name in names {
      var i :| 0 <= i < |names| && names[i] == name;
      assert cs[c].methods[i].name == name;
    }
  }

  /**
   `class B : A { ... }`: on the new class a name answers what it answers on the class
   that A is, unless the declaration defines it; then it answers with that definition.
   */
  method DispatchOnSubclass(
    t: Tables, name: string, superclass: string, methodNames: seq<string>, ivars: seq<string>, called: string)
    returns (onSuperclass: Option<(nat, nat)>, onSubclass: Option<(nat, nat)>)
    requires t.Valid() && superclass in t.classTable
    modifies t
    ensures t.Valid()
    ensures called !in methodNames ==> onSubclass == onSuperclass
    ensures called in methodNames ==>
              && onSubclass.Some? && onSubclass.value.0 == |old(t.classes)|
              && onSubclass.value.1 < |methodNames| && methodNames[onSubclass.value.1] == called
              && forall j | 0 <= j < onSubclass.value.1 :: methodNames[j] != called
  {
    var c, p := |t.classes|, t.classTable[superclass];
    var methods := t.Declare(name, Some(superclass), methodNames, ivars);
    ghost var cs := t.classes;
    ChainStays(old(t.classes), cs, p);
    onSuperclass := t.Dispatch(p, called);
    onSubclass := t.Dispatch(c, called);
    DefinesItsNames(cs, c, methodNames, called);
    if called in methodNames {
      NearestIsOwn(cs, c, called, onSubclass);
    } else {
      NearestOfSuperclass(cs, c, p, called, onSubclass);
      NearestIsUnique(cs, p, called, onSubclass, onSuperclass);
    }
  }

  /** Along the whole chain, instance variables extend those of every superclass as a prefix. */
  lemma {:induction false} InheritedVariablesComeFirst(cs: Classes, c: nat, k: nat)
    requires WellFounded(cs) && c < |cs| && k in Chain(cs, c)
    ensures k < |cs| && cs[k].ivars <= cs[c].ivars
    decreases c
  {
    if k != c {
      InheritedVariablesComeFirst(cs, cs[c].superclass.value, k);
    }
  }
}
