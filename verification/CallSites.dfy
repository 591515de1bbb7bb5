/**
 The profile of a call site over whole traces of receivers: when the assumed
 class switches, and when the cached method is the right one.
 */
module CallSites {
  import opened Tagged
  import opened Runtime

  /** The profile fields of a call node, as the interpreter and compiled code update them. */
  class CallSite {
    var typeAssumption: Word
    var alternativeType: Word
    var alternativeTypeCount: nat
    var cachedMethod: nat

    constructor ()
      ensures Fields() == FRESH_SITE
    {
      typeAssumption, alternativeType, alternativeTypeCount, cachedMethod := 0, 0, 0, 0;
    }

    function Fields(): Site
      reads this
    {
      Site(typeAssumption, alternativeType, alternativeTypeCount, cachedMethod)
    }

    /** One interpreted call on a receiver of class `cls`, whose method is in slot `found`. */
    method Observe(cls: Word, found: nat) returns (slot: nat, recompile: bool)
      modifies this
      ensures Fields() == Step(old(Fields()), cls, found)
      ensures slot == Dispatched(old(Fields()), cls, found)
      ensures recompile == Switches(old(Fields()), cls)
    {
      recompile := false;
      if cls == typeAssumption {
        alternativeTypeCount := 0;
        if cachedMethod != 0 {
          return cachedMethod, false;
        }
      } else if typeAssumption == 0 {
        typeAssumption := cls;
      } else if cls == alternativeType {
        alternativeTypeCount := alternativeTypeCount + 1;
        if alternativeTypeCount > RECOMPILE_THRESHOLD {
          typeAssumption := alternativeType;
          alternativeType, alternativeTypeCount := 0, 0;
          recompile := true;
        }
      } else {
        alternativeType, alternativeTypeCount := cls, 1;
      }
      cachedMethod := found;
      slot := found;
    }

    /** Compiled code passing its guard. */
    method CompiledHit()
      modifies this`alternativeTypeCount
      ensures Fields() == old(Fields()).(alternativeCount := 0)
    {
      alternativeTypeCount := 0;
    }
  }

  /* ---- Single steps ---- */

  function Step(s: Site, cls: Word, found: nat): Site {
    match Profile(s, cls)
    case Cached(s') => s'
    case Lookup(s', _) => s'.(cached := found)
  }

  function Dispatched(s: Site, cls: Word, found: nat): nat {
    match Profile(s, cls)
    case Cached(s') => s'.cached
    case Lookup(_, _) => found
  }

  predicate Switches(s: Site, cls: Word) {
    var p := Profile(s, cls);
    p.Lookup? && p.recompile
  }

  /** An interpreted call with the slot its method is in, or a compiled call that passed its guard. */
  datatype Event = Interpreted(cls: Word, found: nat) | Compiled

  predicate IsMiss(s: Site, e: Event) {
    e.Interpreted? && s.assumed != 0 && e.cls != s.assumed
  }

  /* ---- Histories ---- */

  /**
   A site with its history: the receivers since the assumption was last switched,
   and how many switches and misses there have been in all.
   */
  datatype History = History(site: Site, recent: seq<Word>, switches: nat, misses: nat)

  function Record(h: History, e: Event): History {
    var misses := h.misses + if IsMiss(h.site, e) then 1 else 0;
    match e
    case Compiled =>
      History(h.site.(alternativeCount := 0), h.recent + [h.site.assumed], h.switches, misses)
    case Interpreted(cls, found) =>
      var s' := Step(h.site, cls, found);
      if Switches(h.site, cls) then History(s', [], h.switches + 1, misses)
      else History(s', h.recent + [cls], h.switches, misses)
  }

  function Replay(es: seq<Event>): History
    decreases |es|
  {
    if es == [] then History(FRESH_SITE, [], 0, 0)
    else Record(Replay(es[..|es| - 1]), es[|es| - 1])
  }

  /** Receivers are not null, and compiled calls come after the first interpreted one. */
  ghost predicate Plausible(es: seq<Event>)
    decreases |es|
  {
    es == [] ||
    (&& Plausible(es[..|es| - 1])
     && match es[|es| - 1]
        case Interpreted(cls, _) => cls != 0
        case Compiled => Replay(es[..|es| - 1]).site.assumed != 0)
  }

  /** The length of the run of `x` at the end of `q`. */
  function TrailingRun(q: seq<Word>, x: Word): nat
    decreases |q|
  {
    if q == [] || q[|q| - 1] != x then 0 else 1 + TrailingRun(q[..|q| - 1], x)
  }

  /** What holds of every reachable history. */
  ghost predicate Lawful(h: History) {
    var s := h.site;
    && s.alternativeCount == TrailingRun(h.recent, s.alternative)
    && s.alternativeCount <= RECOMPILE_THRESHOLD
    && (s.assumed == 0 ==> h.recent == [] && s.alternative == 0)
    && (s.assumed != 0 ==> s.alternative != s.assumed)
    && (h.recent != [] && h.recent[|h.recent| - 1] != s.assumed ==> h.recent[|h.recent| - 1] == s.alternative)
    && (RECOMPILE_THRESHOLD + 1) * h.switches + s.alternativeCount <= h.misses
  }

  lemma TrailingAppend(q: seq<Word>, c: Word, x: Word)
    ensures TrailingRun(q + [c], x) == if c == x then 1 + TrailingRun(q, x) else 0
  {
    assert (q + [c])[..|q|] == q;
  }

  lemma {:induction false} LastDiffers(q: seq<Word>, x: Word)
    requires q != [] && q[|q| - 1] != x
    ensures TrailingRun(q, x) == 0
  {
  }

  lemma CompiledIsLawful(h: History)
    requires Lawful(h) && h.site.assumed != 0
    ensures Lawful(Record(h, Compiled))
  {
    TrailingAppend(h.recent, h.site.assumed, h.site.alternative);
  }

  /** The assumed class once more, or the very first receiver. */
  lemma ExpectedIsLawful(h: History, cls: Word, found: nat)
    requires Lawful(h) && cls != 0 && (cls == h.site.assumed || h.site.assumed == 0)
    ensures Lawful(Record(h, Interpreted(cls, found)))
  {
    TrailingAppend(h.recent, cls, h.site.alternative);
    assert cls != h.site.alternative;
  }

  /** The alternative class once more, which may switch the assumption. */
  lemma AlternativeIsLawful(h: History, cls: Word, found: nat)
    requires Lawful(h) && cls != 0 && h.site.assumed != 0 && cls != h.site.assumed && cls == h.site.alternative
    ensures Lawful(Record(h, Interpreted(cls, found)))
  {
    var s := h.site;
    if s.alternativeCount + 1 > RECOMPILE_THRESHOLD {
      assert Record(h, Interpreted(cls, found)) == History(Site(cls, 0, 0, found), [], h.switches + 1, h.misses + 1);
    } else {
      TrailingAppend(h.recent, cls, cls);
    }
  }

  /** A third class becomes the alternative. */
  lemma NewcomerIsLawful(h: History, cls: Word, found: nat)
    requires Lawful(h) && cls != 0 && h.site.assumed != 0 && cls != h.site.assumed && cls != h.site.alternative
    ensures Lawful(Record(h, Interpreted(cls, found)))
  {
    assert Record(h, Interpreted(cls, found))
        == History(Site(h.site.assumed, cls, 1, found), h.recent + [cls], h.switches, h.misses + 1);
    TrailingAppend(h.recent, cls, cls);
    if h.recent != [] {
      LastDiffers(h.recent, cls);
    }
  }

  lemma RecordIsLawful(h: History, e: Event)
    requires Lawful(h)
    requires match e case Interpreted(cls, _) => cls != 0 case Compiled => h.site.assumed != 0
    ensures Lawful(Record(h, e))
  {
    match e
    case Compiled => CompiledIsLawful(h);
    case Interpreted(cls, found) =>
      if cls == h.site.assumed || h.site.assumed == 0 {
        ExpectedIsLawful(h, cls, found);
      } else if cls == h.site.alternative {
        AlternativeIsLawful(h, cls, found);
      } else {
        NewcomerIsLawful(h, cls, found);
      }
  }

  /**
   The profiler's law: after any trace the counter is the length of the trailing
   run of the alternative class, and every switch has paid for itself with
   threshold + 1 misses of its own.
   */
  lemma {:induction false} ProfileLaw(es: seq<Event>)
    requires Plausible(es)
    ensures Lawful(Replay(es))
    decreases |es|
  {
    if es != [] {
      ProfileLaw(es[..|es| - 1]);
      RecordIsLawful(Replay(es[..|es| - 1]), es[|es| - 1]);
    }
  }

  /** The assumption switches exactly on the 10001st consecutive receiver of one other class. */
  lemma SwitchesExactlyAtThreshold(es: seq<Event>, cls: Word)
    requires Plausible(es) && cls != 0
    ensures var h := Replay(es);
            Switches(h.site, cls) <==>
              h.site.assumed != 0 && cls != h.site.assumed
              && TrailingRun(h.recent + [cls], cls) == 10001
  {
    ProfileLaw(es);
    var h := Replay(es);
    TrailingAppend(h.recent, cls, cls);
    if h.site.assumed != 0 && cls != h.site.assumed && cls != h.site.alternative && h.recent != [] {
      assert TrailingRun(h.recent, cls) == 0;
    }
  }

  /* ---- The inline cache ---- */

  /**
   What happens at a site and to the methods it may call: an interpreted call,
   compilation, which fixes class and slot as they are then, a compiled call that
   passes its guard, and the compilation of some method, which overwrites the
   function in that method's slot.
   */
  datatype CacheEvent = Receive(cls: Word) | Bake | BakedHit | Overwrite(slot: nat, fn: nat)

  /** `last` is the class of the last interpreted receiver, `bakedLast` what it was at compilation. */
  datatype Cache = Cache(
    site: Site, last: Word, bakedAssumed: Word, bakedCached: nat, bakedLast: Word, functions: map<nat, nat>)

  const EMPTY_CACHE := Cache(FRESH_SITE, 0, 0, 0, 0, map[])

  /** `slotOf` is method lookup for the selector of the site. */
  function AfterEvent(slotOf: Word -> nat, c: Cache, e: CacheEvent): Cache {
    match e
    case Receive(cls) => c.(site := Step(c.site, cls, slotOf(cls)), last := cls)
    case Bake => c.(bakedAssumed := c.site.assumed, bakedCached := c.site.cached, bakedLast := c.last)
    case BakedHit => c.(site := c.site.(alternativeCount := 0))
    case Overwrite(slot, fn) => c.(functions := c.functions[slot := fn])
  }

  function CacheAfter(slotOf: Word -> nat, es: seq<CacheEvent>): Cache
    decreases |es|
  {
    if es == [] then EMPTY_CACHE
    else AfterEvent(slotOf, CacheAfter(slotOf, es[..|es| - 1]), es[|es| - 1])
  }

  /** Receivers are no null and understand the selector; compiled code passes only a guard for a class. */
  predicate Possible(slotOf: Word -> nat, c: Cache, e: CacheEvent) {
    match e
    case Receive(cls) => cls != 0 && slotOf(cls) != 0
    case BakedHit => c.bakedAssumed != 0
    case _ => true
  }

  predicate AllPossible(slotOf: Word -> nat, es: seq<CacheEvent>) {
    forall i | 0 <= i < |es| :: Possible(slotOf, CacheAfter(slotOf, es[..i]), es[i])
  }

  /** The class of the receiver of a call, and the slot it is called through. */
  function ReceiverOf(c: Cache, e: CacheEvent): Word {
    if e.Receive? then e.cls else c.bakedAssumed
  }

  function SlotCalled(slotOf: Word -> nat, c: Cache, e: CacheEvent): nat {
    if e.Receive? then Dispatched(c.site, e.cls, slotOf(e.cls)) else c.bakedCached
  }

  predicate IsCall(e: CacheEvent) {
    e.Receive? || e.BakedHit?
  }

  /** The call goes through the slot that a fresh lookup finds. */
  predicate RightSlot(slotOf: Word -> nat, c: Cache, e: CacheEvent) {
    IsCall(e) ==> SlotCalled(slotOf, c, e) == slotOf(ReceiverOf(c, e))
  }

  function FunctionIn(c: Cache, slot: nat): nat {
    if slot in c.functions then c.functions[slot] else 0
  }

  /** The call runs the function that a fresh lookup would find at that moment. */
  predicate RightFunction(slotOf: Word -> nat, c: Cache, e: CacheEvent) {
    IsCall(e) ==> FunctionIn(c, SlotCalled(slotOf, c, e)) == FunctionIn(c, slotOf(ReceiverOf(c, e)))
  }

  /**
   Calls that come to a slot left behind by another class: a receiver of the
   assumed class directly after one with another method, and a compiled hit when
   compilation came directly after one with another method.
   */
  predicate Stale(slotOf: Word -> nat, c: Cache, e: CacheEvent) {
    match e
    case Receive(cls) => c.last != 0 && cls == c.site.assumed && slotOf(c.last) != slotOf(cls)
    case BakedHit => slotOf(c.bakedLast) != slotOf(c.bakedAssumed)
    case _ => false
  }

  /** As long as no call has been stale, the cached slots are those of the last receivers. */
  predicate InStep(slotOf: Word -> nat, c: Cache) {
    && (if c.last == 0 then c.site.assumed == 0 && c.site.cached == 0
        else c.site.assumed != 0 && slotOf(c.last) != 0 && c.site.cached == slotOf(c.last))
    && (if c.bakedLast == 0 then c.bakedAssumed == 0
        else c.bakedAssumed != 0 && slotOf(c.bakedLast) != 0 && c.bakedCached == slotOf(c.bakedLast))
    && (c.site.assumed == 0 ==> c.site.alternative == 0)
  }

  lemma InStepStays(slotOf: Word -> nat, c: Cache, e: CacheEvent)
    requires InStep(slotOf, c) && Possible(slotOf, c, e)
    ensures RightSlot(slotOf, c, e) <==> !Stale(slotOf, c, e)
    ensures !Stale(slotOf, c, e) ==> InStep(slotOf, AfterEvent(slotOf, c, e))
  {
  }

  predicate StaleAt(slotOf: Word -> nat, es: seq<CacheEvent>, i: nat)
    requires i < |es|
  {
    Stale(slotOf, CacheAfter(slotOf, es[..i]), es[i])
  }

  predicate RightSlotAt(slotOf: Word -> nat, es: seq<CacheEvent>, i: nat)
    requires i < |es|
  {
    RightSlot(slotOf, CacheAfter(slotOf, es[..i]), es[i])
  }

  lemma {:induction false} InStepUntil(slotOf: Word -> nat, es: seq<CacheEvent>, i: nat)
    requires AllPossible(slotOf, es) && i <= |es|
    requires forall j: nat | j < i :: !StaleAt(slotOf, es, j)
    ensures InStep(slotOf, CacheAfter(slotOf, es[..i]))
    decreases i
  {
    if i == 0 {
      assert es[..0] == [];
    } else {
      assert es[..i][..i - 1] == es[..i - 1];
      InStepUntil(slotOf, es, i - 1);
      assert !StaleAt(slotOf, es, i - 1);
      InStepStays(slotOf, CacheAfter(slotOf, es[..i - 1]), es[i - 1]);
    }
  }

  lemma {:induction false} RightUntilStale(slotOf: Word -> nat, es: seq<CacheEvent>, i: nat)
    requires AllPossible(slotOf, es) && i <= |es|
    requires forall j: nat | j < i :: RightSlotAt(slotOf, es, j)
    ensures forall j: nat | j < i :: !StaleAt(slotOf, es, j)
    decreases i
  {
    if i > 0 {
      RightUntilStale(slotOf, es, i - 1);
      InStepUntil(slotOf, es, i - 1);
      assert RightSlotAt(slotOf, es, i - 1);
      InStepStays(slotOf, CacheAfter(slotOf, es[..i - 1]), es[i - 1]);
    }
  }

  /**
   Over every interleaving of interpreted calls, compilation, compiled hits and
   overwritten functions, all calls go through the right slot exactly when none
   is stale: no receiver of the assumed class, and no compilation that is later
   hit, comes directly after a receiver with another method.
   */
  lemma InlineCacheIsRightExactlyWhen(slotOf: Word -> nat, es: seq<CacheEvent>)
    requires AllPossible(slotOf, es)
    ensures (forall i: nat | i < |es| :: RightSlotAt(slotOf, es, i))
            <==> (forall i: nat | i < |es| :: !StaleAt(slotOf, es, i))
  {
    if forall i: nat | i < |es| :: !StaleAt(slotOf, es, i) {
      forall i: nat | i < |es| ensures RightSlotAt(slotOf, es, i) {
        InStepUntil(slotOf, es, i);
        assert !StaleAt(slotOf, es, i);
        InStepStays(slotOf, CacheAfter(slotOf, es[..i]), es[i]);
      }
    }
    if forall i: nat | i < |es| :: RightSlotAt(slotOf, es, i) {
      RightUntilStale(slotOf, es, |es|);
    }
  }

  /** Through the right slot the right function is found, whatever is in it; through a wrong one, not for long. */
  lemma RightSlotIsRightFunction(slotOf: Word -> nat, c: Cache, e: CacheEvent)
    ensures RightSlot(slotOf, c, e) <==>
              forall slot, fn :: RightFunction(slotOf, AfterEvent(slotOf, c, Overwrite(slot, fn)), e)
  {
    if IsCall(e) && !RightSlot(slotOf, c, e) {
      var called, right := SlotCalled(slotOf, c, e), slotOf(ReceiverOf(c, e));
      var c' := AfterEvent(slotOf, c, Overwrite(called, FunctionIn(c, right) + 1));
      assert SlotCalled(slotOf, c', e) == called && ReceiverOf(c', e) == ReceiverOf(c, e);
      assert FunctionIn(c', called) != FunctionIn(c', right);
    }
  }

  predicate OneClass(es: seq<CacheEvent>, cls: Word) {
    forall i | 0 <= i < |es| :: es[i].Receive? ==> es[i].cls == cls
  }

  lemma {:induction false} OneClassCache(slotOf: Word -> nat, es: seq<CacheEvent>, cls: Word)
    requires OneClass(es, cls)
    ensures var c := CacheAfter(slotOf, es);
            c.last in {0, cls} && c.site.assumed in {0, cls} && c.bakedLast in {0, cls} && c.bakedAssumed in {0, cls}
            && (c.bakedLast == 0 ==> c.bakedAssumed == 0) && (c.last == 0 ==> c.site.assumed == 0)
    decreases |es|
  {
    if es != [] {
      var n := |es| - 1;
      assert OneClass(es[..n], cls) by {
        assert forall i | 0 <= i < n :: es[..n][i] == es[i];
      }
      OneClassCache(slotOf, es[..n], cls);
    }
  }

  /**
   At a site with one receiver class every call, interpreted or compiled, runs the
   function that a fresh lookup would find at that moment, for any interleaving
   with compilation and with functions being overwritten.
   */
  lemma MonomorphicSiteIsRight(slotOf: Word -> nat, es: seq<CacheEvent>, cls: Word)
    requires AllPossible(slotOf, es) && OneClass(es, cls)
    ensures forall i: nat | i < |es| :: RightFunction(slotOf, CacheAfter(slotOf, es[..i]), es[i])
  {
    forall i: nat | i < |es| ensures !StaleAt(slotOf, es, i) {
      assert OneClass(es[..i], cls) by {
        assert forall j | 0 <= j < i :: es[..i][j] == es[j];
      }
      OneClassCache(slotOf, es[..i], cls);
      assert Possible(slotOf, CacheAfter(slotOf, es[..i]), es[i]);
    }
    InlineCacheIsRightExactlyWhen(slotOf, es);
    forall i: nat | i < |es| ensures RightFunction(slotOf, CacheAfter(slotOf, es[..i]), es[i]) {
      assert RightSlotAt(slotOf, es, i);
    }
  }

  /** Two classes with methods of their own: assumed, other, assumed again, and the call goes to the other's method. */
  lemma StaleMethodIsCalled()
    ensures var slotOf := (cls: Word) => if cls == 8 then 1 else 2;
            var es := [Receive(8), Receive(24), Receive(8)];
            AllPossible(slotOf, es) && SlotCalled(slotOf, CacheAfter(slotOf, es[..2]), es[2]) == 2 != slotOf(8)
  {
    var slotOf := (cls: Word) => if cls == 8 then 1 else 2;
    var es := [Receive(8), Receive(24), Receive(8)];
    assert es[..2] == [Receive(8), Receive(24)] && es[..2][..1] == [Receive(8)] == es[..1];
    assert es[..1][..0] == [] == es[..0];
    assert CacheAfter(slotOf, es[..1]).site == Site(8, 0, 0, 1);
    assert CacheAfter(slotOf, es[..2]).site == Site(8, 24, 1, 2);
  }
}
