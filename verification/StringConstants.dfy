/**
 Caches of string constants. Evaluating a string literal, or a sum of such, creates
 an object; with the cache it is created once. Trees here are local to this
 module: expressions over numbers, strings, variables and calls of functions whose
 body returns an expression. Objects are numbered in the order of their creation.
 */
module StringConstants {
  import opened Tagged
  import opened Ast

  datatype Tree =
    | Number(n: int)
    | Text(chars: string)
    | Read(x: nat)
    | Operator(op: ArithOp, l: Tree, r: Tree)
    | Call(f: nat)

  /** Expressions of the program: what its functions return, and what its statements evaluate. */
  type Program = seq<Tree>

  type Path = seq<nat>

  /** A node: an expression of the program, and the way to it from the root. */
  datatype Node = Node(root: nat, path: Path)

  function Child(e: Tree, i: nat): Option<Tree> {
    match e
    case Operator(_, l, r) => if i == 0 then Some(l) else if i == 1 then Some(r) else None
    case _ => None
  }

  function Descend(e: Tree, p: Path): Option<Tree>
    decreases |p|
  {
    if p == [] then Some(e)
    else
      match Descend(e, p[..|p| - 1])
      case None => None
      case Some(parent) => Child(parent, p[|p| - 1])
  }

  function NodeAt(p: Program, n: Node): Option<Tree> {
    if n.root < |p| then Descend(p[n.root], n.path) else None
  }

  function Below(n: Node, i: nat): Node {
    Node(n.root, n.path + [i])
  }

  lemma ChildAt(p: Program, n: Node, i: nat)
    requires NodeAt(p, n).Some?
    ensures NodeAt(p, Below(n, i)) == Child(NodeAt(p, n).value, i)
  {
    assert (n.path + [i])[..|n.path|] == n.path;
  }

  predicate IsConstant(e: Tree) {
    match e
    case Number(_) => true
    case Text(_) => true
    case Operator(_, l, r) => IsConstant(l) && IsConstant(r)
    case _ => false
  }

  datatype Value = Int(n: int) | Null | Str(ref: nat)

  type Env = map<nat, Value>

  function Lookup(env: Env, x: nat): Value {
    if x in env then env[x] else Null
  }

  /** An integer operation, on tagged words. */
  function IntegersOf(op: ArithOp, a: int, b: int): Option<int> {
    match TaggedArith(op, Encode(a), Encode(b))
    case Fine(w) => Some(Shr3(w))
    case Trapped => None
  }

  /* ---- Without caches ---- */

  /** A string object, and the constant whose value it is, if any. */
  datatype Object = Object(chars: string, maker: Option<Node>)

  datatype Result = Got(v: Value, heap: seq<Object>) | Stuck

  function MakerAt(e: Tree, n: Node): Option<Node> {
    if IsConstant(e) then Some(n) else None
  }

  /**
   Integers are computed; `+` on a string concatenates, and gives null for anything
   but a string; other operators have no method.
   */
  function PlainOp(op: ArithOp, l: Value, r: Value, heap: seq<Object>, maker: Option<Node>): Result {
    match l
    case Int(a) =>
      (match r
       case Int(b) => (match IntegersOf(op, a, b) case Some(n) => Got(Int(n), heap) case None => Stuck)
       case _ => Stuck)
    case Str(a) =>
      if !op.Add? || a >= |heap| then Stuck
      else if r.Str? && r.ref < |heap| then
        Got(Str(|heap|), heap + [Object(heap[a].chars + heap[r.ref].chars, maker)])
      else Got(Null, heap)
    case Null => Stuck
  }

  function Plain(p: Program, depth: nat, n: Node, e: Tree, env: Env, heap: seq<Object>): Result
    decreases depth, e
  {
    match e
    case Number(i) => Got(Int(Shr3(Encode(i))), heap)
    case Text(s) => Got(Str(|heap|), heap + [Object(s, Some(n))])
    case Read(x) => Got(Lookup(env, x), heap)
    case Operator(op, l, r) =>
      (match Plain(p, depth, Below(n, 0), l, env, heap)
       case Stuck => Stuck
       case Got(lv, h) =>
         match Plain(p, depth, Below(n, 1), r, env, h)
         case Stuck => Stuck
         case Got(rv, h') => PlainOp(op, lv, rv, h', MakerAt(e, n)))
    case Call(f) =>
      if depth == 0 || f >= |p| then Stuck else Plain(p, depth - 1, Node(f, []), p[f], env, heap)
  }

  /* ---- With caches ---- */

  /** String objects, and the value cached in each node; a null value is not cached. */
  datatype Store = Store(heap: seq<string>, caches: map<Node, Value>)

  datatype CachedResult = Found(v: Value, s: Store) | Failed

  function CachedOp(op: ArithOp, l: Value, r: Value, s: Store): CachedResult {
    match l
    case Int(a) =>
      (match r
       case Int(b) => (match IntegersOf(op, a, b) case Some(n) => Found(Int(n), s) case None => Failed)
       case _ => Failed)
    case Str(a) =>
      if !op.Add? || a >= |s.heap| then Failed
      else if r.Str? && r.ref < |s.heap| then
        Found(Str(|s.heap|), s.(heap := s.heap + [s.heap[a] + s.heap[r.ref]]))
      else Found(Null, s)
    case Null => Failed
  }

  function Remember(e: Tree, n: Node, r: CachedResult): CachedResult {
    match r
    case Found(v, s) => if IsConstant(e) && !v.Null? then Found(v, s.(caches := s.caches[n := v])) else r
    case Failed => r
  }

  /** `evaluate`: the cached value, or the node's own evaluation, which a constant remembers. */
  function Cached(p: Program, depth: nat, n: Node, e: Tree, env: Env, s: Store): CachedResult
    decreases depth, e, 1
  {
    if n in s.caches then Found(s.caches[n], s) else Remember(e, n, CachedNode(p, depth, n, e, env, s))
  }

  function CachedNode(p: Program, depth: nat, n: Node, e: Tree, env: Env, s: Store): CachedResult
    decreases depth, e, 0
  {
    match e
    case Number(i) => Found(Int(Shr3(Encode(i))), s)
    case Text(chars) => Found(Str(|s.heap|), s.(heap := s.heap + [chars]))
    case Read(x) => Found(Lookup(env, x), s)
    case Operator(op, l, r) =>
      (match Cached(p, depth, Below(n, 0), l, env, s)
       case Failed => Failed
       case Found(lv, s1) =>
         match Cached(p, depth, Below(n, 1), r, env, s1)
         case Failed => Failed
         case Found(rv, s2) => CachedOp(op, lv, rv, s2))
    case Call(f) =>
      if depth == 0 || f >= |p| then Failed else Cached(p, depth - 1, Node(f, []), p[f], env, s)
  }

  /** The program's nodes with their cache fields, and the heap. */
  class Nodes {
    const program: Program
    var store: Store

    constructor (p: Program)
      ensures program == p && store == Store([], map[])
    {
      program, store := p, Store([], map[]);
    }

    method Evaluate(depth: nat, n: Node, e: Tree, env: Env) returns (v: Option<Value>)
      modifies this
      ensures match Cached(program, depth, n, e, env, old(store))
              case Found(w, s) => v == Some(w) && store == s
              case Failed => v == None
      decreases depth, e, 1
    {
      if n in store.caches {
        return Some(store.caches[n]);
      }
      v := EvaluateNode(depth, n, e, env);
      if v.Some? && IsConstant(e) && !v.value.Null? {
        store := store.(caches := store.caches[n := v.value]);
      }
    }

    method EvaluateNode(depth: nat, n: Node, e: Tree, env: Env) returns (v: Option<Value>)
      modifies this
      ensures match CachedNode(program, depth, n, e, env, old(store))
              case Found(w, s) => v == Some(w) && store == s
              case Failed => v == None
      decreases depth, e, 0
    {
      match e
      case Number(i) => v := Some(Int(Shr3(Encode(i))));
      case Text(chars) =>
        v := Some(Str(|store.heap|));
        store := store.(heap := store.heap + [chars]);
      case Read(x) => v := Some(Lookup(env, x));
      case Operator(op, l, r) =>
        v := Evaluate(depth, Below(n, 0), l, env);
        if v.Some? {
          var lv := v.value;
          v := Evaluate(depth, Below(n, 1), r, env);
          if v.Some? {
            var result := CachedOp(op, lv, v.value, store);
            match result {
              case Found(w, s) => v, store := Some(w), s;
              case Failed => v := None;
            }
          }
        }
      case Call(f) =>
        if depth == 0 || f >= |program| {
          v := None;
        } else {
          v := Evaluate(depth - 1, Node(f, []), program[f], env);
        }
    }
  }

  /* ---- What constants mean ---- */

  datatype Meaning = Numeric(n: int) | Chars(s: string) | Nothing | Fails

  function MeaningOf(e: Tree): Meaning
    requires IsConstant(e)
  {
    match e
    case Number(i) => Numeric(Shr3(Encode(i)))
    case Text(s) => Chars(s)
    case Operator(op, l, r) => Combine(op, MeaningOf(l), MeaningOf(r))
  }

  function Combine(op: ArithOp, l: Meaning, r: Meaning): Meaning {
    if l.Fails? || r.Fails? || l.Nothing? then Fails
    else if l.Numeric? then
      if r.Numeric? && IntegersOf(op, l.n, r.n).Some? then Numeric(IntegersOf(op, l.n, r.n).value) else Fails
    else if !op.Add? then Fails
    else if r.Chars? then Chars(l.s + r.s)
    else Nothing
  }

  /** A value with that meaning. */
  predicate Means(v: Value, contents: seq<string>, m: Meaning) {
    match v
    case Int(n) => m == Numeric(n)
    case Null => m == Nothing
    case Str(a) => a < |contents| && m == Chars(contents[a])
  }

  function Contents(heap: seq<Object>): seq<string> {
    seq(|heap|, i requires 0 <= i < |heap| => heap[i].chars)
  }

  /** Existing objects stay; a string is a new object, with the constant as its maker. */
  ghost predicate MakesConstant(e: Tree, n: Node, heap: seq<Object>, r: Result)
    requires IsConstant(e)
  {
    match r
    case Stuck => MeaningOf(e) == Fails
    case Got(v, h) =>
      && heap <= h && Means(v, Contents(h), MeaningOf(e))
      && (v.Str? ==> |heap| <= v.ref && h[v.ref].maker == Some(n))
  }

  lemma {:induction false} ConstantMakes(p: Program, depth: nat, n: Node, e: Tree, env: Env, heap: seq<Object>)
    requires IsConstant(e)
    ensures MakesConstant(e, n, heap, Plain(p, depth, n, e, env, heap))
    decreases e
  {
    match e
    case Number(_) =>
    case Text(_) =>
    case Operator(op, l, r) =>
      ConstantMakes(p, depth, Below(n, 0), l, env, heap);
      var left := Plain(p, depth, Below(n, 0), l, env, heap);
      if left.Got? {
        ConstantMakes(p, depth, Below(n, 1), r, env, left.heap);
      }
  }

  /* ---- The run with caches as an image of the run without ---- */

  /** Objects of the run without caches, to objects of the run with them. */
  type Image = map<nat, nat>

  /** Same content; and an object made by a constant goes to the object cached there, no other one does. */
  ghost predicate Pictures(m: Image, heap: seq<Object>, s: Store) {
    && (forall a | a in m :: a < |heap| && m[a] < |s.heap| && heap[a].chars == s.heap[m[a]])
    && (forall a | a in m :: forall n | n in s.caches ::
          s.caches[n] == Str(m[a]) <==> heap[a].maker == Some(n))
    && (forall a | a in m && heap[a].maker.Some? :: heap[a].maker.value in s.caches)
    && (forall a, b | a in m && b in m && a != b && m[a] == m[b] :: heap[a].maker.Some?)
  }

  /** Cached are values of constants, for each string constant its own object. */
  ghost predicate Faithful(p: Program, s: Store) {
    && (forall n | n in s.caches ::
          && NodeAt(p, n).Some? && IsConstant(NodeAt(p, n).value)
          && Means(s.caches[n], s.heap, MeaningOf(NodeAt(p, n).value)) && !s.caches[n].Null?)
    && (forall n, n' | n in s.caches && n' in s.caches && n != n' && s.caches[n].Str? :: s.caches[n] != s.caches[n'])
  }

  predicate SameUpTo(m: Image, v: Value, c: Value) {
    match v
    case Str(a) => a in m && c == Str(m[a])
    case _ => c == v
  }

  ghost predicate EnvsMatch(m: Image, env: Env, cached: Env) {
    forall x :: SameUpTo(m, Lookup(env, x), Lookup(cached, x))
  }

  ghost predicate Extends(m: Image, m': Image) {
    forall a | a in m :: a in m' && m'[a] == m[a]
  }

  ghost predicate Related(p: Program, m: Image, heap: seq<Object>, s: Store) {
    Pictures(m, heap, s) && Faithful(p, s)
  }

  /** Both runs fail, or both have values that are the same up to the image. */
  ghost predicate InStep(p: Program, m: Image, heap: seq<Object>, m': Image, r: Result, c: CachedResult) {
    match r
    case Stuck => c.Failed?
    case Got(v, h) =>
      && c.Found? && Related(p, m', h, c.s) && SameUpTo(m', v, c.v) && Extends(m, m') && heap <= h
      && (v.Str? ==> v.ref < |h|)
  }

  /** A new object on both sides. */
  lemma NewOnBoth(
    p: Program, m: Image, heap: seq<Object>, s: Store, chars: string, maker: Option<Node>, h: seq<Object>, s': Store)
    requires Related(p, m, heap, s) && maker.None?
    requires h == heap + [Object(chars, maker)] && s' == s.(heap := s.heap + [chars])
    ensures Related(p, m[|heap| := |s.heap|], h, s')
  {
    HeapGrows(p, s, s');
    var m' := m[|heap| := |s.heap|];
    forall a | a in m' ensures a < |h| && m'[a] < |s'.heap| && h[a].chars == s'.heap[m'[a]] {
    }
    forall a | a in m'
      ensures forall n | n in s'.caches :: s'.caches[n] == Str(m'[a]) <==> h[a].maker == Some(n)
    {
      forall n | n in s'.caches ensures s'.caches[n] == Str(m'[a]) <==> h[a].maker == Some(n) {
        assert Means(s.caches[n], s.heap, MeaningOf(NodeAt(p, n).value));
      }
    }
  }

  lemma HeapGrows(p: Program, s: Store, s': Store)
    requires Faithful(p, s) && s.heap <= s'.heap && s'.caches == s.caches
    ensures Faithful(p, s')
  {
    forall n | n in s'.caches ensures Means(s'.caches[n], s'.heap, MeaningOf(NodeAt(p, n).value)) {
      assert Means(s.caches[n], s.heap, MeaningOf(NodeAt(p, n).value));
    }
  }

  /** A new object on both sides, which the constant at `n` has made and remembers. */
  lemma NewConstant(
    p: Program, m: Image, heap: seq<Object>, s: Store, chars: string, n: Node, h: seq<Object>, s': Store)
    requires Related(p, m, heap, s) && n !in s.caches
    requires NodeAt(p, n).Some? && IsConstant(NodeAt(p, n).value) && MeaningOf(NodeAt(p, n).value) == Chars(chars)
    requires h == heap + [Object(chars, Some(n))]
    requires s' == Store(s.heap + [chars], s.caches[n := Str(|s.heap|)])
    ensures Related(p, m[|heap| := |s.heap|], h, s')
  {
    HeapGrows(p, s, s.(heap := s.heap + [chars]));
    forall n', n'' | n' in s'.caches && n'' in s'.caches && n' != n'' && s'.caches[n'].Str?
      ensures s'.caches[n'] != s'.caches[n'']
    {
      assert n' in s.caches ==> Means(s.caches[n'], s.heap, MeaningOf(NodeAt(p, n').value));
      assert n'' in s.caches ==> Means(s.caches[n''], s.heap, MeaningOf(NodeAt(p, n'').value));
    }
    var m' := m[|heap| := |s.heap|];
    forall a | a in m'
      ensures forall n' | n' in s'.caches :: s'.caches[n'] == Str(m'[a]) <==> h[a].maker == Some(n')
    {
      forall n' | n' in s'.caches ensures s'.caches[n'] == Str(m'[a]) <==> h[a].maker == Some(n') {
        assert n' in s.caches ==> Means(s.caches[n'], s.heap, MeaningOf(NodeAt(p, n').value));
      }
    }
  }

  /** A number is remembered. */
  lemma NumberRemembered(p: Program, m: Image, heap: seq<Object>, s: Store, n: Node, i: int)
    requires Related(p, m, heap, s) && n !in s.caches
    requires NodeAt(p, n).Some? && IsConstant(NodeAt(p, n).value) && MeaningOf(NodeAt(p, n).value) == Numeric(i)
    ensures Related(p, m, heap, s.(caches := s.caches[n := Int(i)]))
  {
  }

  /** A constant is found in its cache, while the run without caches makes a new object. */
  lemma ConstantFound(p: Program, m: Image, heap: seq<Object>, s: Store, n: Node, v: Value, h: seq<Object>)
    returns (m': Image)
    requires Related(p, m, heap, s) && n in s.caches && heap <= h
    requires Means(v, Contents(h), MeaningOf(NodeAt(p, n).value))
    requires v.Str? ==> |heap| <= v.ref && h[v.ref].maker == Some(n)
    ensures Related(p, m', h, s) && SameUpTo(m', v, s.caches[n]) && Extends(m, m')
  {
    assert Means(s.caches[n], s.heap, MeaningOf(NodeAt(p, n).value));
    match v
    case Str(a) =>
      m' := m[a := s.caches[n].ref];
    case _ => m' := m;
  }

  /** An operator that is no constant. */
  lemma OperatorInStep(
    p: Program, m: Image, heap: seq<Object>, s: Store, op: ArithOp, lv: Value, rv: Value, lc: Value, rc: Value)
    returns (m': Image)
    requires Related(p, m, heap, s) && SameUpTo(m, lv, lc) && SameUpTo(m, rv, rc)
    ensures InStep(p, m, heap, m', PlainOp(op, lv, rv, heap, None), CachedOp(op, lc, rc, s))
  {
    m' := m;
    if lv.Str? && rv.Str? && op.Add? {
      var chars := heap[lv.ref].chars + heap[rv.ref].chars;
      m' := m[|heap| := |s.heap|];
      NewOnBoth(p, m, heap, s, chars, None, heap + [Object(chars, None)], s.(heap := s.heap + [chars]));
    }
  }

  /** An operator on constants, whose value has the meaning of the node. */
  lemma ConstantInStep(
    p: Program, m: Image, heap: seq<Object>, s: Store, op: ArithOp, lv: Value, rv: Value, lc: Value, rc: Value,
    e: Tree, n: Node)
    returns (m': Image)
    requires Related(p, m, heap, s) && SameUpTo(m, lv, lc) && SameUpTo(m, rv, rc)
    requires IsConstant(e) && NodeAt(p, n) == Some(e) && n !in s.caches
    requires var r := PlainOp(op, lv, rv, heap, Some(n)); r.Got? ==> Means(r.v, Contents(r.heap), MeaningOf(e))
    ensures InStep(p, m, heap, m', PlainOp(op, lv, rv, heap, Some(n)), Remember(e, n, CachedOp(op, lc, rc, s)))
  {
    m' := m;
    match PlainOp(op, lv, rv, heap, Some(n))
    case Stuck =>
    case Got(v, h) =>
      match v
      case Int(i) => NumberRemembered(p, m, heap, s, n, i);
      case Null =>
      case Str(_) =>
        var chars := heap[lv.ref].chars + heap[rv.ref].chars;
        m' := m[|heap| := |s.heap|];
        assert Contents(h)[|heap|] == chars;
        NewConstant(p, m, heap, s, chars, n, h, Store(s.heap + [chars], s.caches[n := Str(|s.heap|)]));
  }

  /** Evaluating a constant fills caches of its own nodes only. */
  predicate FillsBelow(n: Node, s: Store, s': Store) {
    forall n' | n' in s'.caches && n' !in s.caches :: n'.root == n.root && n.path <= n'.path
  }

  lemma OperandsFillBelow(n: Node, s: Store, s1: Store, s2: Store)
    requires FillsBelow(Below(n, 0), s, s1) && FillsBelow(Below(n, 1), s1, s2)
    ensures FillsBelow(n, s, s2) && (n !in s.caches ==> n !in s2.caches)
  {
    assert n.path <= Below(n, 0).path && n.path <= Below(n, 1).path;
  }

  lemma {:induction false} ConstantFillsBelow(p: Program, depth: nat, n: Node, e: Tree, env: Env, s: Store)
    requires IsConstant(e)
    ensures var r := Cached(p, depth, n, e, env, s); r.Found? ==> FillsBelow(n, s, r.s)
    decreases e
  {
    match e
    case Operator(op, l, r) =>
      ConstantFillsBelow(p, depth, Below(n, 0), l, env, s);
      match Cached(p, depth, Below(n, 0), l, env, s) {
        case Failed =>
        case Found(lv, s1) =>
          ConstantFillsBelow(p, depth, Below(n, 1), r, env, s1);
          match Cached(p, depth, Below(n, 1), r, env, s1)
          case Failed =>
          case Found(rv, s2) =>
            OperandsFillBelow(n, s, s1, s2);
            RememberFills(e, n, op, lv, rv, s, s2);
      }
    case _ =>
  }

  lemma RememberFills(e: Tree, n: Node, op: ArithOp, l: Value, r: Value, s: Store, s': Store)
    requires FillsBelow(n, s, s')
    ensures var c := Remember(e, n, CachedOp(op, l, r, s')); c.Found? ==> FillsBelow(n, s, c.s)
  {
  }

  lemma EnvsStay(m: Image, m': Image, env: Env, cached: Env)
    requires EnvsMatch(m, env, cached) && Extends(m, m')
    ensures EnvsMatch(m', env, cached)
  {
    forall x ensures SameUpTo(m', Lookup(env, x), Lookup(cached, x)) {
      assert SameUpTo(m, Lookup(env, x), Lookup(cached, x));
    }
  }

  /** One evaluation, whatever was evaluated before: the values are the same up to the identity of strings. */
  lemma {:induction false} EvaluationInStep(
    p: Program, depth: nat, n: Node, e: Tree, env: Env, cached: Env, m: Image, heap: seq<Object>, s: Store)
    returns (m': Image)
    requires NodeAt(p, n) == Some(e) && Related(p, m, heap, s) && EnvsMatch(m, env, cached)
    ensures InStep(p, m, heap, m', Plain(p, depth, n, e, env, heap), Cached(p, depth, n, e, cached, s))
    decreases depth, e
  {
    if n in s.caches {
      ConstantMakes(p, depth, n, e, env, heap);
      var r := Plain(p, depth, n, e, env, heap);
      m' := ConstantFound(p, m, heap, s, n, r.v, r.heap);
    } else {
      match e
      case Number(i) =>
        m' := m;
        NumberRemembered(p, m, heap, s, n, Shr3(Encode(i)));
      case Text(chars) =>
        m' := m[|heap| := |s.heap|];
        NewConstant(p, m, heap, s, chars, n, heap + [Object(chars, Some(n))],
                    Store(s.heap + [chars], s.caches[n := Str(|s.heap|)]));
      case Read(x) =>
        m' := m;
        assert SameUpTo(m, Lookup(env, x), Lookup(cached, x));
      case Operator(_, _, _) => m' := OperandsInStep(p, depth, n, e, env, cached, m, heap, s);
      case Call(f) =>
        m' := m;
        if depth > 0 && f < |p| {
          m' := EvaluationInStep(p, depth - 1, Node(f, []), p[f], env, cached, m, heap, s);
        }
    }
  }

  lemma {:induction false} OperandsInStep(
    p: Program, depth: nat, n: Node, e: Tree, env: Env, cached: Env, m: Image, heap: seq<Object>, s: Store)
    returns (m': Image)
    requires NodeAt(p, n) == Some(e) && Related(p, m, heap, s) && EnvsMatch(m, env, cached)
    requires e.Operator? && n !in s.caches
    ensures InStep(p, m, heap, m', Plain(p, depth, n, e, env, heap), Cached(p, depth, n, e, cached, s))
    decreases depth, e, 0
  {
    ChildAt(p, n, 0);
    ChildAt(p, n, 1);
    m' := EvaluationInStep(p, depth, Below(n, 0), e.l, env, cached, m, heap, s);
    var left, leftCached := Plain(p, depth, Below(n, 0), e.l, env, heap), Cached(p, depth, Below(n, 0), e.l, cached, s);
    if left.Got? {
      EnvsStay(m, m', env, cached);
      var m1 := m';
      m' := EvaluationInStep(p, depth, Below(n, 1), e.r, env, cached, m1, left.heap, leftCached.s);
      var right := Plain(p, depth, Below(n, 1), e.r, env, left.heap);
      var rightCached := Cached(p, depth, Below(n, 1), e.r, cached, leftCached.s);
      if right.Got? {
        var m2 := m';
        m' := ResultInStep(p, depth, n, e, env, cached, m2, heap, s, left, leftCached, right, rightCached);
      }
    }
  }

  /** The operator itself, once both operands are evaluated. */
  lemma ResultInStep(
    p: Program, depth: nat, n: Node, e: Tree, env: Env, cached: Env, m: Image, heap: seq<Object>, s: Store,
    left: Result, leftCached: CachedResult, right: Result, rightCached: CachedResult)
    returns (m': Image)
    requires NodeAt(p, n) == Some(e) && e.Operator? && n !in s.caches
    requires left == Plain(p, depth, Below(n, 0), e.l, env, heap) && left.Got?
    requires right == Plain(p, depth, Below(n, 1), e.r, env, left.heap) && right.Got?
    requires leftCached == Cached(p, depth, Below(n, 0), e.l, cached, s) && leftCached.Found?
    requires rightCached == Cached(p, depth, Below(n, 1), e.r, cached, leftCached.s) && rightCached.Found?
    requires Related(p, m, right.heap, rightCached.s)
    requires SameUpTo(m, left.v, leftCached.v) && SameUpTo(m, right.v, rightCached.v)
    ensures InStep(p, m, right.heap, m', Plain(p, depth, n, e, env, heap), Cached(p, depth, n, e, cached, s))
  {
    if IsConstant(e) {
      ConstantMakes(p, depth, n, e, env, heap);
      ConstantFillsBelow(p, depth, Below(n, 0), e.l, cached, s);
      ConstantFillsBelow(p, depth, Below(n, 1), e.r, cached, leftCached.s);
      OperandsFillBelow(n, s, leftCached.s, rightCached.s);
      m' := ConstantInStep(p, m, right.heap, rightCached.s, e.op, left.v, right.v, leftCached.v, rightCached.v, e, n);
    } else {
      m' := OperatorInStep(p, m, right.heap, rightCached.s, e.op, left.v, right.v, leftCached.v, rightCached.v);
    }
  }

  /* ---- Whole runs ---- */

  /** Variable `x` is given the value of expression `k` of the program. */
  datatype Step = Step(x: nat, k: nat)

  datatype PlainRun = Ran(env: Env, heap: seq<Object>) | Crashed

  datatype CachedRun = RanCached(env: Env, s: Store) | CrashedCached

  function RunPlain(p: Program, depth: nat, steps: seq<Step>, env: Env, heap: seq<Object>): PlainRun {
    if steps == [] then Ran(env, heap)
    else if steps[0].k >= |p| then Crashed
    else
      match Plain(p, depth, Node(steps[0].k, []), p[steps[0].k], env, heap)
      case Stuck => Crashed
      case Got(v, h) => RunPlain(p, depth, steps[1..], env[steps[0].x := v], h)
  }

  function RunCached(p: Program, depth: nat, steps: seq<Step>, env: Env, s: Store): CachedRun {
    if steps == [] then RanCached(env, s)
    else if steps[0].k >= |p| then CrashedCached
    else
      match Cached(p, depth, Node(steps[0].k, []), p[steps[0].k], env, s)
      case Failed => CrashedCached
      case Found(v, s') => RunCached(p, depth, steps[1..], env[steps[0].x := v], s')
  }

  ghost predicate RunsInStep(p: Program, m: Image, r: PlainRun, c: CachedRun) {
    match r
    case Crashed => c.CrashedCached?
    case Ran(env, heap) => c.RanCached? && Related(p, m, heap, c.s) && EnvsMatch(m, env, c.env)
  }

  /** After any assignments, repeated or not, all variables are the same up to the identity of strings. */
  lemma {:induction false} RunStaysInStep(
    p: Program, depth: nat, steps: seq<Step>, env: Env, cached: Env, m: Image, heap: seq<Object>, s: Store)
    returns (m': Image)
    requires Related(p, m, heap, s) && EnvsMatch(m, env, cached)
    ensures RunsInStep(p, m', RunPlain(p, depth, steps, env, heap), RunCached(p, depth, steps, cached, s))
    decreases steps
  {
    m' := m;
    if steps != [] && steps[0].k < |p| {
      var n := Node(steps[0].k, []);
      m' := EvaluationInStep(p, depth, n, p[steps[0].k], env, cached, m, heap, s);
      var r, c := Plain(p, depth, n, p[steps[0].k], env, heap), Cached(p, depth, n, p[steps[0].k], cached, s);
      if r.Got? {
        var m1 := m';
        EnvsStay(m, m1, env, cached);
        EnvsStore(m1, env, cached, steps[0].x, r.v, c.v);
        m' := RunStaysInStep(p, depth, steps[1..], env[steps[0].x := r.v], cached[steps[0].x := c.v], m1, r.heap, c.s);
      }
    }
  }

  lemma EnvsStore(m: Image, env: Env, cached: Env, x: nat, v: Value, c: Value)
    requires EnvsMatch(m, env, cached) && SameUpTo(m, v, c)
    ensures EnvsMatch(m, env[x := v], cached[x := c])
  {
    var env', cached' := env[x := v], cached[x := c];
    forall y ensures SameUpTo(m, Lookup(env', y), Lookup(cached', y)) {
      assert SameUpTo(m, Lookup(env, y), Lookup(cached, y));
    }
  }

  /* ---- Comparisons ---- */

  /** The interpreter compares shifted words: null is the number zero, strings are their addresses. */
  predicate Equal(l: Value, r: Value) {
    if l.Str? || r.Str? then l == r
    else (if l.Int? then l.n else 0) == (if r.Int? then r.n else 0)
  }

  /** Both operands of `==`, left one first. */
  datatype Operands = Both(l: Value, r: Value, heap: seq<Object>) | OneStuck

  function PlainOperands(p: Program, depth: nat, i: nat, j: nat, env: Env, heap: seq<Object>): Operands
    requires i < |p| && j < |p|
  {
    match Plain(p, depth, Node(i, []), p[i], env, heap)
    case Stuck => OneStuck
    case Got(l, h) =>
      match Plain(p, depth, Node(j, []), p[j], env, h)
      case Stuck => OneStuck
      case Got(r, h') => Both(l, r, h')
  }

  datatype CachedOperands = BothCached(l: Value, r: Value, s: Store) | OneFailed

  function OperandsFromCache(p: Program, depth: nat, i: nat, j: nat, env: Env, s: Store): CachedOperands
    requires i < |p| && j < |p|
  {
    match Cached(p, depth, Node(i, []), p[i], env, s)
    case Failed => OneFailed
    case Found(l, s1) =>
      match Cached(p, depth, Node(j, []), p[j], env, s1)
      case Failed => OneFailed
      case Found(r, s2) => BothCached(l, r, s2)
  }

  /** Two objects that the same string constant has made, at different times. */
  predicate MadeTwice(l: Value, r: Value, heap: seq<Object>) {
    && l.Str? && r.Str? && l != r && l.ref < |heap| && r.ref < |heap|
    && heap[l.ref].maker.Some? && heap[l.ref].maker == heap[r.ref].maker
  }

  /** What the comparison makes of operands that are the same up to the image. */
  lemma EqualUnderImage(p: Program, m: Image, heap: seq<Object>, s: Store, l: Value, r: Value, lc: Value, rc: Value)
    requires Related(p, m, heap, s) && SameUpTo(m, l, lc) && SameUpTo(m, r, rc)
    ensures Equal(lc, rc) != Equal(l, r) <==> MadeTwice(l, r, heap)
  {
    if l.Str? && r.Str? && l != r {
      var a, b := l.ref, r.ref;
      assert a in m && b in m;
      if m[a] == m[b] {
        var n := heap[a].maker.value;
        assert s.caches[n] == Str(m[a]) <==> heap[a].maker == Some(n);
        assert s.caches[n] == Str(m[b]) <==> heap[b].maker == Some(n);
      }
      if MadeTwice(l, r, heap) {
        var n := heap[a].maker.value;
        assert n in s.caches;
        assert s.caches[n] == Str(m[a]) <==> heap[a].maker == Some(n);
        assert s.caches[n] == Str(m[b]) <==> heap[b].maker == Some(n);
      }
    }
  }

  /**
   After any run of assignments a comparison of two expressions tells the caches
   exactly when its operands are two objects that one string constant has made:
   they are one object with the cache. In everything else the runs are the same.
   */
  lemma ComparisonTellsExactlyWhen(p: Program, depth: nat, steps: seq<Step>, i: nat, j: nat)
    requires i < |p| && j < |p| && RunPlain(p, depth, steps, map[], []).Ran?
    ensures RunCached(p, depth, steps, map[], Store([], map[])).RanCached?
    ensures var r, c := RunPlain(p, depth, steps, map[], []), RunCached(p, depth, steps, map[], Store([], map[]));
            var o, oc := PlainOperands(p, depth, i, j, r.env, r.heap), OperandsFromCache(p, depth, i, j, c.env, c.s);
            && (o.OneStuck? <==> oc.OneFailed?)
            && (o.Both? ==> (Equal(oc.l, oc.r) != Equal(o.l, o.r) <==> MadeTwice(o.l, o.r, o.heap)))
  {
    var m := RunStaysInStep(p, depth, steps, map[], map[], map[], [], Store([], map[]));
    var r, c := RunPlain(p, depth, steps, map[], []), RunCached(p, depth, steps, map[], Store([], map[]));
    var m1 := EvaluationInStep(p, depth, Node(i, []), p[i], r.env, c.env, m, r.heap, c.s);
    var l, lc := Plain(p, depth, Node(i, []), p[i], r.env, r.heap), Cached(p, depth, Node(i, []), p[i], c.env, c.s);
    if l.Got? {
      EnvsStay(m, m1, r.env, c.env);
      var m2 := EvaluationInStep(p, depth, Node(j, []), p[j], r.env, c.env, m1, l.heap, lc.s);
      var right := Plain(p, depth, Node(j, []), p[j], r.env, l.heap);
      var rightCached := Cached(p, depth, Node(j, []), p[j], c.env, lc.s);
      if right.Got? {
        EqualUnderImage(p, m2, right.heap, rightCached.s, l.v, right.v, lc.v, rightCached.v);
      }
    }
  }

  /** `func f() { return "a"; }`, and the two calls of `f() == f()`. */
  const RETURNS_TEXT: Program := [Text("a"), Call(0), Call(0)]

  /** True with the caches and false without. */
  lemma CalledTwice()
    ensures var o := PlainOperands(RETURNS_TEXT, 1, 1, 2, map[], []);
            var c := OperandsFromCache(RETURNS_TEXT, 1, 1, 2, map[], Store([], map[]));
            && o.Both? && !Equal(o.l, o.r) && MadeTwice(o.l, o.r, o.heap)
            && c.BothCached? && Equal(c.l, c.r)
  {
    var p := RETURNS_TEXT;
    assert Plain(p, 1, Node(1, []), p[1], map[], []) == Plain(p, 0, Node(0, []), p[0], map[], []);
    assert Cached(p, 1, Node(1, []), p[1], map[], Store([], map[]))
        == Found(Str(0), Store(["a"], map[Node(0, []) := Str(0)]));
  }
}
